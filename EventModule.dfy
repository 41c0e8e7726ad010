/**
 * The Python `event` module's side of the event hub
 * (Scripting/Python/Modules/eventmodule.cpp).
 *
 * The module registers Python callbacks as hub listeners, and bridges
 * coroutines to events: a coroutine that awaits one of the module's
 * awaitables yields an "await tuple"; the module decodes it and registers a
 * listener that resumes the coroutine at the next emission of that event
 * and then unregisters itself. The module's state remembers, per tracked
 * event type, the ids of the listeners it registered, so that `Reset` can
 * unregister all of them when the script is unloaded.
 *
 * Python objects are modelled by what the module can observe of them: a
 * callback is None, not callable, or callable with a known behaviour; a
 * coroutine is the sequence of values it yields on successive resumptions.
 */
module EventModule {
  import opened Wrappers
  import opened Events

  /** The event types `EventModuleState` keeps listener ids for. */
  const TrackedKinds: set<EventKind> := {FrameAdvance, MemoryBreakpoint, CodeBreakpoint, FrameDrawn}

  /** The first element of every await tuple the module's awaitables yield. */
  const MagicString: string := "dolphin_async_event_magic_string"

  // ---------------------------------------------------------------------------
  // Python values
  // ---------------------------------------------------------------------------

  /** An element of a tuple a coroutine yields: a `str`, or any other object. */
  datatype PyItem = PyStr(s: string) | PyObj(token: nat)

  /** A value a coroutine yields to the emulator. */
  datatype Yielded = PyTuple(items: seq<PyItem>) | PyNonTuple(token: nat)

  /** A started coroutine: identified by `token`, and the values it yields on
      its next resumptions, in order; once they run out, resuming it finishes it. */
  datatype Coroutine = Coroutine(token: nat, pending: seq<Yielded>)

  /** The object handed to a module's `on_<event>` function. A callable, when
      called, performs `body` on the hub and may return a coroutine. */
  datatype PyObject =
    | PyNone
    | PyNonCallable(token: nat)
    | PyCallable(token: nat, body: seq<Effect>, returned: Option<Coroutine>)

  /** The Python exceptions `AddCallback` raises. */
  datatype CallbackError =
    | ValueError  // "event callback must not be None"
    | TypeError   // "event callback must be callable"

  /** Why `HandleCoroutine` rejects a yielded value (each case is logged). */
  datatype AwaitError =
    | NotAnAwaitTuple
    | WrongMagicString
    | UnknownEvent(name: string)

  // ---------------------------------------------------------------------------
  // Decoding what a coroutine awaits
  // ---------------------------------------------------------------------------

  /** The names of the awaitable events and the event types they wait for. */
  const SchedulerTable: map<string, EventKind> := map[
    "frameadvance" := FrameAdvance,
    "memorybreakpoint" := MemoryBreakpoint,
    "codebreakpoint" := CodeBreakpoint,
    "framedrawn" := FrameDrawn]

  /** The awaitable name of a tracked event type. */
  function EventName(k: EventKind): string {
    match k
    case FrameAdvance => "frameadvance"
    case MemoryBreakpoint => "memorybreakpoint"
    case CodeBreakpoint => "codebreakpoint"
    case FrameDrawn => "framedrawn"
    case _ => ""
  }

  /** `GetCoroutineScheduler`: the event type whose `ScheduleCoroutine` serves the name, if any. */
  function GetCoroutineScheduler(name: string): (r: Option<EventKind>)
    ensures r.Some? ==> r.value in TrackedKinds
  {
    if name in SchedulerTable then Some(SchedulerTable[name]) else None
  }

  /** Exactly the four awaitable names have a scheduler, and the lookup and
      `EventName` are inverse to each other on the tracked event types. */
  lemma SchedulerNamesRoundTrip(name: string, k: EventKind)
    ensures GetCoroutineScheduler(name).Some? <==>
      name in {"frameadvance", "memorybreakpoint", "codebreakpoint", "framedrawn"}
    ensures k in TrackedKinds ==> GetCoroutineScheduler(EventName(k)) == Some(k)
    ensures GetCoroutineScheduler(name) == Some(k) ==> EventName(k) == name
  {
  }

  /** `PyArg_ParseTuple(..., "ssO", ...)`: a tuple of exactly three items whose
      first two are strings without a NUL character. */
  function ParseAwaitTuple(y: Yielded): (r: Option<(string, string)>) {
    if y.PyTuple? && |y.items| == 3 && y.items[0].PyStr? && y.items[1].PyStr?
       && '\0' !in y.items[0].s && '\0' !in y.items[1].s
    then Some((y.items[0].s, y.items[1].s))
    else None
  }

  /** The decision `HandleCoroutine` takes on a yielded value: the event type to wait for, or why not. */
  function DecodeAwait(y: Yielded): (r: Result<EventKind, AwaitError>)
    ensures r.Ok? ==> r.value in TrackedKinds
  {
    match ParseAwaitTuple(y)
    case None => Err(NotAnAwaitTuple)
    case Some((magic, name)) =>
      if magic != MagicString then Err(WrongMagicString)
      else match GetCoroutineScheduler(name)
        case None => Err(UnknownEvent(name))
        case Some(k) => Ok(k)
  }

  /** What `_DolphinAsyncEvent(name).__await__` yields: the magic string, the name and the arguments. */
  function AwaitTuple(name: string, args: PyItem): Yielded {
    PyTuple([PyStr(MagicString), PyStr(name), args])
  }

  /** Awaiting one of the module's awaitables is decoded as waiting for its event. */
  lemma AwaitablesDecode(k: EventKind, args: PyItem)
    requires k in TrackedKinds
    ensures DecodeAwait(AwaitTuple(EventName(k), args)) == Ok(k)
  {
    SchedulerNamesRoundTrip(EventName(k), k);
    MagicStringHasNoNul();
    assert '\0' !in EventName(k);
    var y := AwaitTuple(EventName(k), args);
    assert ParseAwaitTuple(y) == Some((MagicString, EventName(k)));
  }

  lemma MagicStringHasNoNul()
    ensures '\0' !in MagicString
  {
  }

  /** Every value decoded as waiting for an event is the await tuple of that
      event's awaitable, whatever its third item. */
  lemma DecodedIsAwaitable(y: Yielded, k: EventKind)
    requires DecodeAwait(y) == Ok(k)
    ensures k in TrackedKinds && y == AwaitTuple(EventName(k), y.items[2])
  {
    var (m, n) := ParseAwaitTuple(y).value;
    SchedulerNamesRoundTrip(n, k);
    assert y.items == [PyStr(m), PyStr(n), y.items[2]];
  }

  /** A name the module does not know is rejected with that name, and the
      module's awaitables always get past the magic-string check. */
  lemma DecodeAwaitRejects(name: string, args: PyItem)
    requires '\0' !in name && GetCoroutineScheduler(name).None?
    ensures DecodeAwait(AwaitTuple(name, args)) == Err(UnknownEvent(name))
  {
    MagicStringHasNoNul();
  }

  // ---------------------------------------------------------------------------
  // The listeners the module registers
  // ---------------------------------------------------------------------------

  /** What resuming a coroutine does to the hub: when the value it yields
      asks for an event, register the rest of the coroutine for that event. */
  function ResumeEffects(coro: Coroutine): seq<Effect>
    decreases |coro.pending|, 0
  {
    if coro.pending == [] then []
    else match DecodeAwait(coro.pending[0])
      case Err(_) => []
      case Ok(k) => [Listen(k, CoroutineListener(Coroutine(coro.token, coro.pending[1..])))]
  }

  /** The listener of `ScheduleCoroutine`: resume the coroutine, then unlisten itself. */
  function CoroutineListener(coro: Coroutine): (l: Listener)
    decreases |coro.pending|, 1
  {
    Listener(coro.token, ResumeEffects(coro) + [UnlistenSelf])
  }

  /** The listener of `AddCallback`: call the callback and, when it returns a
      coroutine, start that coroutine. */
  function CallbackListener(token: nat, body: seq<Effect>, returned: Option<Coroutine>): Listener {
    Listener(token, body + (match returned case Some(coro) => ResumeEffects(coro) case None => []))
  }

  /** The callback's listener does what the callback's call does and then
      starts the coroutine it returned, if any; unlike a coroutine listener
      it never unregisters itself on its own, so it runs on every emission. */
  lemma CallbackListenerRuns(token: nat, body: seq<Effect>, returned: Option<Coroutine>)
    ensures var es := CallbackListener(token, body, returned).effects;
      && |body| <= |es| && es[..|body|] == body
      && (returned.None? ==> es == body)
      && (returned.Some? ==> es[|body|..] == ResumeEffects(returned.value))
      && (UnlistenSelf in es <==> UnlistenSelf in body)
  {
    var es := CallbackListener(token, body, returned).effects;
    if returned.Some? {
      var rs := ResumeEffects(returned.value);
      assert UnlistenSelf !in rs;
      assert es == body + rs;
    }
  }

  /** A coroutine listener always ends by unregistering itself. */
  lemma CoroutineListenerUnlistensItself(coro: Coroutine)
    ensures var es := CoroutineListener(coro).effects;
      es != [] && es[|es| - 1] == UnlistenSelf && |es| <= 2
  {
  }

  /**
   * An emission of an event a coroutine waits for resumes it exactly once and
   * leaves its listener unregistered; whatever the coroutine awaits next is
   * registered under an id the emission's snapshot does not contain, so it
   * is not resumed by the same emission.
   */
  lemma CoroutineResumedOncePerAwait(h: Hub, k: EventKind, a: nat, coro: Coroutine)
    requires HubValid(h) && a < |h.Get(k).pairs| && h.Get(k).pairs[a].1 == CoroutineListener(coro)
    ensures var (h', trace) := Emit(h, k); var id := h.Get(k).pairs[a].0;
      && trace[a] == Invocation(Some(id), CoroutineListener(coro))
      && (forall i :: 0 <= i < |trace| && trace[i].id == Some(id) ==> i == a)
      && !HasId(h'.Get(k).pairs, id)
      && (forall i :: 0 <= i < |trace| && trace[i].id.Some? ==> trace[i].id.value < h.Get(k).nextId)
  {
    CoroutineListenerUnlistensItself(coro);
    SelfUnlisteningFiresOnce(h, k, a);
    EmitSnapshot(h, k);
    var (_, trace) := Emit(h, k);
    var entry := h.Get(k).pairs;
    forall i | 0 <= i < |trace| && trace[i].id.Some? ensures trace[i].id.value < h.Get(k).nextId {
      assert i < |entry|;
    }
  }

  // ---------------------------------------------------------------------------
  // What `Reset` does to the hub
  // ---------------------------------------------------------------------------

  /** The pairs whose ids are not in `ids`, in order. */
  function Without(ps: seq<Pair>, ids: set<nat>): (qs: seq<Pair>)
    decreases |ps|
  {
    if ps == [] then []
    else (if ps[0].0 in ids then [] else [ps[0]]) + Without(ps[1..], ids)
  }

  /** A channel with the durable listeners holding one of `ids` removed. */
  function ClearIds(c: Channel, ids: set<nat>): (c': Channel) {
    c.(pairs := Without(c.pairs, ids))
  }

  /** `Reset`: every tracked event type loses the listeners the module registered for it. */
  function ResetHub(h: Hub, active: map<EventKind, set<nat>>): (h': Hub)
    requires TrackedKinds <= active.Keys
    ensures forall j :: j !in TrackedKinds ==> h'.Get(j) == h.Get(j)
  {
    h.Put(FrameAdvance, ClearIds(h.Get(FrameAdvance), active[FrameAdvance]))
     .Put(MemoryBreakpoint, ClearIds(h.Get(MemoryBreakpoint), active[MemoryBreakpoint]))
     .Put(CodeBreakpoint, ClearIds(h.Get(CodeBreakpoint), active[CodeBreakpoint]))
     .Put(FrameDrawn, ClearIds(h.Get(FrameDrawn), active[FrameDrawn]))
  }

  lemma {:induction false} WithoutMembers(ps: seq<Pair>, ids: set<nat>, p: Pair)
    ensures p in Without(ps, ids) <==> p in ps && p.0 !in ids
    decreases |ps|
  {
    if ps != [] {
      WithoutMembers(ps[1..], ids, p);
      assert ps == [ps[0]] + ps[1..];
    }
  }

  lemma {:induction false} WithoutKeepsIncreasing(ps: seq<Pair>, ids: set<nat>)
    requires StrictlyIncreasing(ps)
    ensures StrictlyIncreasing(Without(ps, ids))
    decreases |ps|
  {
    if ps != [] {
      WithoutKeepsIncreasing(ps[1..], ids);
      var rest := Without(ps[1..], ids);
      forall b | 0 <= b < |rest| ensures ps[0].0 < rest[b].0 {
        WithoutMembers(ps[1..], ids, rest[b]);
        var i :| 0 <= i < |ps[1..]| && ps[1..][i] == rest[b];
        assert ps[i + 1] == rest[b];
      }
    }
  }

  lemma WithoutKeepsValid(c: Channel, ids: set<nat>)
    requires ChannelValid(c)
    ensures ChannelValid(ClearIds(c, ids))
  {
    WithoutKeepsIncreasing(c.pairs, ids);
    var ps := Without(c.pairs, ids);
    forall a | 0 <= a < |ps| ensures ps[a].0 < c.nextId {
      WithoutMembers(c.pairs, ids, ps[a]);
    }
  }

  lemma {:induction false} WithoutNothing(ps: seq<Pair>, ids: set<nat>)
    requires forall i :: 0 <= i < |ps| ==> ps[i].0 !in ids
    ensures Without(ps, ids) == ps
    decreases |ps|
  {
    if ps != [] {
      WithoutNothing(ps[1..], ids);
    }
  }

  /** Under unique ids, removing the first pair holding `id` removes every pair holding it. */
  lemma {:induction false} WithoutOne(ps: seq<Pair>, a: nat)
    requires StrictlyIncreasing(ps) && a < |ps|
    ensures Without(ps, {ps[a].0}) == ps[..a] + ps[a + 1..]
    decreases a
  {
    if a == 0 {
      WithoutNothing(ps[1..], {ps[0].0});
    } else {
      assert ps[1..][a - 1] == ps[a];
      WithoutOne(ps[1..], a - 1);
      assert ps[..a] + ps[a + 1..] == [ps[0]] + (ps[1..][..a - 1] + ps[1..][a..]);
    }
  }

  lemma RemoveFirstIsWithout(ps: seq<Pair>, id: nat)
    requires StrictlyIncreasing(ps)
    ensures RemoveFirst(ps, id).0 == Without(ps, {id})
  {
    match FirstIndex(ps, id)
    case None => WithoutNothing(ps, {id});
    case Some(a) => WithoutOne(ps, a);
  }

  lemma {:induction false} WithoutConcat(x: seq<Pair>, y: seq<Pair>, ids: set<nat>)
    ensures Without(x + y, ids) == Without(x, ids) + Without(y, ids)
    decreases |x|
  {
    if x != [] {
      var head := if x[0].0 in ids then [] else [x[0]];
      assert (x + y)[0] == x[0] && (x + y)[1..] == x[1..] + y;
      WithoutConcat(x[1..], y, ids);
      assert Without(x, ids) == head + Without(x[1..], ids);
      assert Without(x + y, ids) == head + Without(x[1..] + y, ids);
      assert head + (Without(x[1..], ids) + Without(y, ids)) == (head + Without(x[1..], ids)) + Without(y, ids);
    } else {
      assert x + y == y;
    }
  }

  lemma {:induction false} WithoutUnion(ps: seq<Pair>, d: set<nat>, e: set<nat>)
    ensures Without(Without(ps, d), e) == Without(ps, d + e)
    decreases |ps|
  {
    if ps != [] {
      var head := if ps[0].0 in d then [] else [ps[0]];
      WithoutConcat(head, Without(ps[1..], d), e);
      WithoutUnion(ps[1..], d, e);
      if head != [] {
        assert head[1..] == [];
      }
    }
  }

  /** One step of `Reset`'s loop: unlistening a further id of a channel already
      cleared of some ids clears it of those ids and the new one. */
  lemma UnlistenClearsOneMore(c: Channel, done: set<nat>, id: nat)
    requires ChannelValid(c)
    ensures ChannelUnlisten(ClearIds(c, done), id).0 == ClearIds(c, done + {id})
  {
    WithoutKeepsIncreasing(c.pairs, done);
    RemoveFirstIsWithout(Without(c.pairs, done), id);
    WithoutUnion(c.pairs, done, {id});
  }

  /**
   * After `Reset`, no tracked event type holds a listener the module
   * registered; every other listener is kept, in order; one-shot listeners,
   * counters and the untracked event types are untouched.
   */
  lemma ResetRemovesModuleListeners(h: Hub, active: map<EventKind, set<nat>>, k: EventKind, p: Pair)
    requires HubValid(h) && TrackedKinds <= active.Keys
    ensures HubValid(ResetHub(h, active))
    ensures k in TrackedKinds ==>
      (p in ResetHub(h, active).Get(k).pairs <==> p in h.Get(k).pairs && p.0 !in active[k])
    ensures ResetHub(h, active).Get(k).once == h.Get(k).once
    ensures ResetHub(h, active).Get(k).nextId == h.Get(k).nextId
    ensures k !in TrackedKinds ==> ResetHub(h, active).Get(k) == h.Get(k)
  {
    var r := ResetHub(h, active);
    forall j ensures ChannelValid(r.Get(j)) {
      if j in TrackedKinds {
        WithoutKeepsValid(h.Get(j), active[j]);
      }
    }
    if k in TrackedKinds {
      WithoutMembers(h.Get(k).pairs, active[k], p);
    }
  }

  // ---------------------------------------------------------------------------
  // The imperative model
  // ---------------------------------------------------------------------------

  /** What resuming `coro` does to the module's tracked ids: the id of the
      listener it is registered under next, if any, is noted. */
  function ResumeTracked(h: Hub, active: map<EventKind, set<nat>>, coro: Coroutine): (a: map<EventKind, set<nat>>)
    requires TrackedKinds <= active.Keys
    ensures a.Keys == active.Keys
  {
    if coro.pending == [] then active
    else match DecodeAwait(coro.pending[0])
      case Err(_) => active
      case Ok(k) => active[k := active[k] + {h.Get(k).nextId}]
  }

  /** `EventModuleState`: the hub and the ids of the listeners registered through the module. */
  class EventModuleState {
    const eventHub: GenericEventHub
    var activeListenerIds: map<EventKind, set<nat>>

    ghost predicate Valid()
      reads this, eventHub.Repr()
    {
      eventHub.Valid() && activeListenerIds.Keys == TrackedKinds
    }

    constructor (eventHub: GenericEventHub)
      requires eventHub.Valid()
      ensures Valid() && this.eventHub == eventHub
      ensures forall k :: k in TrackedKinds ==> activeListenerIds[k] == {}
    {
      this.eventHub := eventHub;
      activeListenerIds := map k | k in TrackedKinds :: {};
    }

    method NoteActiveListenerId(k: EventKind, id: nat)
      requires Valid() && k in TrackedKinds
      modifies this
      ensures Valid()
      ensures activeListenerIds == old(activeListenerIds)[k := old(activeListenerIds)[k] + {id}]
    {
      activeListenerIds := activeListenerIds[k := activeListenerIds[k] + {id}];
    }

    method ForgetActiveListenerId(k: EventKind, id: nat)
      requires Valid() && k in TrackedKinds
      modifies this
      ensures Valid()
      ensures activeListenerIds == old(activeListenerIds)[k := old(activeListenerIds)[k] - {id}]
    {
      activeListenerIds := activeListenerIds[k := activeListenerIds[k] - {id}];
    }

    /** Unlisten every id noted for `k`, then forget them all. The ids are
        unlistened in an arbitrary order; the outcome does not depend on it. */
    method ResetKind(k: EventKind)
      requires Valid() && k in TrackedKinds
      modifies this, eventHub.Container(k)
      ensures Valid()
      ensures activeListenerIds == old(activeListenerIds)[k := {}]
      ensures eventHub.State() == old(eventHub.State()).Put(k, ClearIds(old(eventHub.State()).Get(k), old(activeListenerIds)[k]))
    {
      ghost var h0 := eventHub.State();
      var ids := activeListenerIds[k];
      var remaining := ids;
      assert ids - remaining == {};
      assert ChannelValid(h0.Get(k)) by { assert eventHub.Container(k).Valid(); }
      ClearNothing(h0, k);
      while remaining != {}
        invariant remaining <= ids && ChannelValid(h0.Get(k))
        invariant eventHub.Valid() && activeListenerIds == old(activeListenerIds)
        invariant eventHub.State() == h0.Put(k, ClearIds(h0.Get(k), ids - remaining))
        decreases remaining
      {
        var id :| id in remaining;
        var _ := eventHub.UnlistenEvent(k, id);
        ClearOneMore(h0, k, ids - remaining, id);
        assert (ids - remaining) + {id} == ids - (remaining - {id});
        remaining := remaining - {id};
      }
      assert ids - remaining == ids;
      activeListenerIds := activeListenerIds[k := {}];
    }

    /** `Reset`: the tracked event types in declaration order. */
    method Reset()
      requires Valid()
      modifies this, eventHub.Repr()
      ensures Valid()
      ensures forall k :: k in TrackedKinds ==> activeListenerIds[k] == {}
      ensures eventHub.State() == ResetHub(old(eventHub.State()), old(activeListenerIds))
    {
      ghost var h0 := eventHub.State();
      ghost var a0 := activeListenerIds;
      ResetKind(FrameAdvance);
      ghost var h1 := eventHub.State();
      ghost var a1 := activeListenerIds;
      ResetKind(MemoryBreakpoint);
      ghost var h2 := eventHub.State();
      ghost var a2 := activeListenerIds;
      ResetKind(CodeBreakpoint);
      ghost var h3 := eventHub.State();
      ghost var a3 := activeListenerIds;
      ResetKind(FrameDrawn);
      ResetHubChain(h0, a0, h1, a1, h2, a2, h3, a3, eventHub.State(), activeListenerIds);
    }

    /** `PyEvent<T>::AddCallback`: reject None and non-callables; otherwise
        register the callback's listener and note its id, and return the id. */
    method AddCallback(k: EventKind, newCallback: PyObject) returns (r: Result<nat, CallbackError>)
      requires Valid() && k in TrackedKinds
      modifies this, eventHub.Container(k)
      ensures Valid()
      ensures newCallback.PyNone? ==> r == Err(ValueError)
      ensures newCallback.PyNonCallable? ==> r == Err(TypeError)
      ensures r.Err? ==> activeListenerIds == old(activeListenerIds) && eventHub.State() == old(eventHub.State())
      ensures newCallback.PyCallable? ==> (r.Ok?
        && (eventHub.State(), r.value) == HubListen(old(eventHub.State()), k,
             CallbackListener(newCallback.token, newCallback.body, newCallback.returned))
        && activeListenerIds == old(activeListenerIds)[k := old(activeListenerIds)[k] + {r.value}])
    {
      if newCallback.PyNone? {
        return Err(ValueError);
      }
      if !newCallback.PyCallable? {
        return Err(TypeError);
      }
      var listener := CallbackListener(newCallback.token, newCallback.body, newCallback.returned);
      var listenerId := eventHub.ListenEvent(k, listener);
      NoteActiveListenerId(k, listenerId);
      return Ok(listenerId);
    }

    /** `PyEvent<T>::ScheduleCoroutine`: register the coroutine's listener and note its id. */
    method ScheduleCoroutine(k: EventKind, coro: Coroutine) returns (listenerId: nat)
      requires Valid() && k in TrackedKinds
      modifies this, eventHub.Container(k)
      ensures Valid()
      ensures (eventHub.State(), listenerId) == HubListen(old(eventHub.State()), k, CoroutineListener(coro))
      ensures activeListenerIds == old(activeListenerIds)[k := old(activeListenerIds)[k] + {listenerId}]
    {
      listenerId := eventHub.ListenEvent(k, CoroutineListener(coro));
      NoteActiveListenerId(k, listenerId);
    }

    /** `HandleCoroutine`: decode what `coro` yielded and schedule the rest of
        it on the event it awaits; on an error nothing happens but a log line. */
    method HandleCoroutine(coro: Coroutine, asyncEventTuple: Yielded) returns (r: Result<nat, AwaitError>)
      requires Valid()
      modifies this, eventHub.Repr()
      ensures Valid()
      ensures r.Err? <==> DecodeAwait(asyncEventTuple).Err?
      ensures r.Err? ==> (r.error == DecodeAwait(asyncEventTuple).error
        && activeListenerIds == old(activeListenerIds) && eventHub.State() == old(eventHub.State()))
      ensures r.Ok? ==> var k := DecodeAwait(asyncEventTuple).value;
        && (eventHub.State(), r.value) == HubListen(old(eventHub.State()), k, CoroutineListener(coro))
        && activeListenerIds == old(activeListenerIds)[k := old(activeListenerIds)[k] + {r.value}]
    {
      var parsed := ParseAwaitTuple(asyncEventTuple);
      if parsed.None? {
        return Err(NotAnAwaitTuple);
      }
      var (magicString, eventName) := parsed.value;
      if magicString != MagicString {
        return Err(WrongMagicString);
      }
      var scheduler := GetCoroutineScheduler(eventName);
      if scheduler.None? {
        return Err(UnknownEvent(eventName));
      }
      var listenerId := ScheduleCoroutine(scheduler.value, coro);
      return Ok(listenerId);
    }

    /** `HandleNewCoroutine`: resume the coroutine; if it yields, handle the
        value; if it finishes, nothing happens. */
    method HandleNewCoroutine(coro: Coroutine) returns (r: Option<Result<nat, AwaitError>>)
      requires Valid()
      modifies this, eventHub.Repr()
      ensures Valid()
      ensures r.None? <==> coro.pending == []
      ensures forall k, self :: eventHub.State() == PerformEffects(old(eventHub.State()), k, self, ResumeEffects(coro))
      ensures activeListenerIds == ResumeTracked(old(eventHub.State()), old(activeListenerIds), coro)
    {
      if coro.pending == [] {
        return None;
      }
      var handled := HandleCoroutine(Coroutine(coro.token, coro.pending[1..]), coro.pending[0]);
      r := Some(handled);
    }

    /**
     * The body of the listener `ScheduleCoroutine` registers under `id` for
     * `k`, where `coro` is the coroutine as it stands when the event fires:
     * resume it (its yield handled as by `HandleNewCoroutine`), forget the
     * id, and unlisten it. The hub ends as the listener's effects say, and
     * neither the hub nor the tracked ids keep `id`.
     */
    method RunCoroutineListener(k: EventKind, id: nat, coro: Coroutine)
      requires Valid() && k in TrackedKinds && id < eventHub.State().Get(k).nextId
      modifies this, eventHub.Repr()
      ensures Valid()
      ensures eventHub.State() == PerformEffects(old(eventHub.State()), k, Some(id), CoroutineListener(coro).effects)
      ensures var a := ResumeTracked(old(eventHub.State()), old(activeListenerIds), coro);
        activeListenerIds == a[k := a[k] - {id}]
      ensures id !in activeListenerIds[k] && !HasId(eventHub.State().Get(k).pairs, id)
    {
      ghost var h0 := eventHub.State();
      ghost var a0 := activeListenerIds;
      var _ := HandleNewCoroutine(coro);
      ghost var h1 := eventHub.State();
      ghost var a1 := activeListenerIds;
      assert h1 == PerformEffects(h0, k, Some(id), ResumeEffects(coro));
      assert a1 == ResumeTracked(h0, a0, coro);
      ForgetActiveListenerId(k, id);
      var _ := eventHub.UnlistenEvent(k, id);
      assert eventHub.State() == HubUnlisten(h1, k, id).0;
      CoroutineListenerSteps(h0, k, id, coro);
    }
  }

  /** Clearing no ids leaves the hub as it is. */
  lemma ClearNothing(h: Hub, k: EventKind)
    ensures h.Put(k, ClearIds(h.Get(k), {})) == h
  {
    WithoutNothing(h.Get(k).pairs, {});
    assert ClearIds(h.Get(k), {}) == h.Get(k);
    HubExtensional(h, h.Put(k, ClearIds(h.Get(k), {})));
  }

  /** One step of `Reset`'s loop on the hub: unlistening one more id clears it too. */
  lemma ClearOneMore(h: Hub, k: EventKind, done: set<nat>, id: nat)
    requires ChannelValid(h.Get(k))
    ensures HubUnlisten(h.Put(k, ClearIds(h.Get(k), done)), k, id).0
         == h.Put(k, ClearIds(h.Get(k), done + {id}))
  {
    var before := h.Put(k, ClearIds(h.Get(k), done));
    UnlistenClearsOneMore(h.Get(k), done, id);
    HubExtensional(HubUnlisten(before, k, id).0, h.Put(k, ClearIds(h.Get(k), done + {id})));
  }

  /** `Reset`, one tracked event type after another, ends in `ResetHub`
      with every tracked set emptied. */
  lemma ResetHubChain(h0: Hub, a0: map<EventKind, set<nat>>, h1: Hub, a1: map<EventKind, set<nat>>,
                      h2: Hub, a2: map<EventKind, set<nat>>, h3: Hub, a3: map<EventKind, set<nat>>,
                      h4: Hub, a4: map<EventKind, set<nat>>)
    requires a0.Keys == TrackedKinds
    requires h1 == h0.Put(FrameAdvance, ClearIds(h0.Get(FrameAdvance), a0[FrameAdvance]))
    requires a1 == a0[FrameAdvance := {}]
    requires h2 == h1.Put(MemoryBreakpoint, ClearIds(h1.Get(MemoryBreakpoint), a1[MemoryBreakpoint]))
    requires a2 == a1[MemoryBreakpoint := {}]
    requires h3 == h2.Put(CodeBreakpoint, ClearIds(h2.Get(CodeBreakpoint), a2[CodeBreakpoint]))
    requires a3 == a2[CodeBreakpoint := {}]
    requires h4 == h3.Put(FrameDrawn, ClearIds(h3.Get(FrameDrawn), a3[FrameDrawn]))
    requires a4 == a3[FrameDrawn := {}]
    ensures h4 == ResetHub(h0, a0)
    ensures forall k :: k in TrackedKinds ==> a4[k] == {}
  {
    assert h1.Get(MemoryBreakpoint) == h0.Get(MemoryBreakpoint);
    assert h2.Get(CodeBreakpoint) == h0.Get(CodeBreakpoint);
    assert h3.Get(FrameDrawn) == h0.Get(FrameDrawn);
  }

  /** The coroutine listener's effects are the resumption and then one unlisten of its own id. */
  lemma CoroutineListenerSteps(h: Hub, k: EventKind, id: nat, coro: Coroutine)
    requires HubValid(h) && id < h.Get(k).nextId
    ensures var h1 := PerformEffects(h, k, Some(id), ResumeEffects(coro));
      var h2 := PerformEffects(h, k, Some(id), CoroutineListener(coro).effects);
      && h2 == HubUnlisten(h1, k, id).0
      && HubValid(h2)
      && !HasId(h2.Get(k).pairs, id)
  {
    var es := ResumeEffects(coro);
    var h1 := PerformEffects(h, k, Some(id), es);
    ResumeStepInvariants(h, k, id, coro);
    UnlistenKeepsValid(h1.Get(k), id);
    PutKeepsValid(h1, k, ChannelUnlisten(h1.Get(k), id).0);
    assert CoroutineListener(coro).effects == es + [UnlistenSelf];
    assert (es + [UnlistenSelf])[..|es|] == es;
  }

  /** Resuming a coroutine keeps the hub valid and does not lower the counters. */
  lemma ResumeStepInvariants(h: Hub, k: EventKind, id: nat, coro: Coroutine)
    requires HubValid(h) && id < h.Get(k).nextId
    ensures var h1 := PerformEffects(h, k, Some(id), ResumeEffects(coro));
      HubValid(h1) && id < h1.Get(k).nextId
  {
    PerformEffectsInvariants(h, k, Some(id), ResumeEffects(coro));
  }
}
