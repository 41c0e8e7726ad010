/**
 * The typed event hub of the scripting API (Core/API/Events.h).
 *
 * An `EventContainer` manages the listeners of one event type: durable
 * listeners stored as (id, listener) pairs in registration order, with ids
 * drawn from a counter that only grows, and one-shot listeners without id.
 * `GenericEventHub` routes every operation on event type T to T's container.
 *
 * A listener is a callable whose behaviour is opaque except for the hub
 * operations it performs when invoked; the model records those operations
 * as data (`Effect`), so that emission can be stated precisely: what is
 * invoked, in which order, and what remains registered afterwards.
 *
 * The first half of the module is the specification (values and functions
 * on them); the second half is the imperative model (the two classes), whose
 * methods are proved to follow the specification.
 */
module Events {
  import opened Wrappers

  /** The event types of `EventHub` (Events.h:197-198). */
  datatype EventKind =
    | FrameAdvance
    | FrameDrawn
    | SetInterrupt
    | ClearInterrupt
    | MemoryBreakpoint
    | CodeBreakpoint

  /**
   * A listener: an opaque callable, identified by `token`, and the hub
   * operations it performs, in order, each time it is invoked.
   */
  datatype Listener = Listener(token: nat, effects: seq<Effect>)

  /** A hub operation performed by a listener while it runs. */
  datatype Effect =
    | Listen(kind: EventKind, listener: Listener)
    | ListenOnce(kind: EventKind, listener: Listener)
    | Unlisten(kind: EventKind, id: nat)
      /** Unlisten the id under which the running listener was invoked
          (the coroutine listener's captured `listener_id`); a one-shot
          listener has no id, so for it this does nothing. */
    | UnlistenSelf

  /** An entry of `m_listener_pairs`: a `ListenerID` value and its listener. */
  type Pair = (nat, Listener)

  /** One call of a listener during an emission; `id` is None for a one-shot. */
  datatype Invocation = Invocation(id: Option<nat>, listener: Listener)

  // ---------------------------------------------------------------------------
  // Specification of one container
  // ---------------------------------------------------------------------------

  /** The abstract state of one `EventContainer<T>`. */
  datatype Channel = Channel(pairs: seq<Pair>, once: seq<Listener>, nextId: nat)

  const EmptyChannel := Channel([], [], 0)

  predicate StrictlyIncreasing(ps: seq<Pair>) {
    forall a, b :: 0 <= a < b < |ps| ==> ps[a].0 < ps[b].0
  }

  predicate IdsBelow(ps: seq<Pair>, n: nat) {
    forall a :: 0 <= a < |ps| ==> ps[a].0 < n
  }

  /** The container invariant: registration order is id order, and every id
      held is below the counter. Hence no id is held twice, and the id the
      counter hands out next is not held. */
  predicate ChannelValid(c: Channel) {
    StrictlyIncreasing(c.pairs) && IdsBelow(c.pairs, c.nextId)
  }

  predicate HasId(ps: seq<Pair>, id: nat) {
    exists a :: 0 <= a < |ps| && ps[a].0 == id
  }

  /** The position of the first pair holding `id`, as `UnlistenEvent`'s search finds it. */
  function FirstIndex(ps: seq<Pair>, id: nat): (r: Option<nat>)
    ensures r.Some? ==> r.value < |ps| && ps[r.value].0 == id
    ensures r.Some? ==> forall b :: 0 <= b < r.value ==> ps[b].0 != id
    ensures r.None? <==> !HasId(ps, id)
  {
    if ps == [] then None
    else if ps[0].0 == id then Some(0)
    else
      match FirstIndex(ps[1..], id)
      case None => None
      case Some(a) => Some(a + 1)
  }

  /** Removes the first pair holding `id`; reports whether there was one. */
  function RemoveFirst(ps: seq<Pair>, id: nat): (r: (seq<Pair>, bool))
    ensures r.1 <==> FirstIndex(ps, id).Some?
    ensures |r.0| == (if r.1 then |ps| - 1 else |ps|)
  {
    match FirstIndex(ps, id)
    case None => (ps, false)
    case Some(a) => (ps[..a] + ps[a + 1..], true)
  }

  /** `ListenEvent`: the new channel and the id handed out. */
  function ChannelListen(c: Channel, l: Listener): (r: (Channel, nat)) {
    (c.(pairs := c.pairs + [(c.nextId, l)], nextId := c.nextId + 1), c.nextId)
  }

  /** `UnlistenEvent`: the new channel and whether the id was found. */
  function ChannelUnlisten(c: Channel, id: nat): (r: (Channel, bool)) {
    var (ps, found) := RemoveFirst(c.pairs, id);
    (c.(pairs := ps), found)
  }

  /** `ListenEventOnce`. */
  function ChannelListenOnce(c: Channel, l: Listener): (c': Channel) {
    c.(once := c.once + [l])
  }

  /** `HasListeners`. */
  predicate ChannelHasListeners(c: Channel) {
    c.pairs != [] || c.once != []
  }

  /** `ListenEvent` returns the counter and then increments it; the listener
      goes to the end, and the invariant is kept, so the id handed out is
      larger than every id held and is not held before the call. */
  lemma ListenIssuesFreshId(c: Channel, l: Listener)
    requires ChannelValid(c)
    ensures var (c', id) := ChannelListen(c, l);
      && ChannelValid(c')
      && id == c.nextId && c'.nextId == id + 1
      && !HasId(c.pairs, id)
      && (forall a :: 0 <= a < |c.pairs| ==> c.pairs[a].0 < id)
      && c'.pairs == c.pairs + [(id, l)] && c'.once == c.once
  {
  }

  /** Removing one position from an id-ordered sequence keeps it ordered. */
  lemma {:induction false} RemoveAtKeepsOrder(ps: seq<Pair>, a: nat, n: nat)
    requires a < |ps|
    requires StrictlyIncreasing(ps) && IdsBelow(ps, n)
    ensures StrictlyIncreasing(ps[..a] + ps[a + 1..]) && IdsBelow(ps[..a] + ps[a + 1..], n)
  {
    var r := ps[..a] + ps[a + 1..];
    assert forall x :: 0 <= x < |r| ==> r[x] == (if x < a then ps[x] else ps[x + 1]);
  }

  /** `UnlistenEvent` with an id that is held: it removes exactly that pair,
      keeps the others in order, and afterwards no pair holds the id; the
      one-shot listeners and the counter are untouched. */
  lemma UnlistenPresent(c: Channel, id: nat)
    requires ChannelValid(c) && HasId(c.pairs, id)
    ensures var (c', found) := ChannelUnlisten(c, id);
      && found
      && ChannelValid(c')
      && (exists a :: 0 <= a < |c.pairs| && c.pairs[a].0 == id && c'.pairs == c.pairs[..a] + c.pairs[a + 1..])
      && |c'.pairs| == |c.pairs| - 1
      && !HasId(c'.pairs, id)
      && c'.once == c.once && c'.nextId == c.nextId
  {
    var a := FirstIndex(c.pairs, id).value;
    var r := c.pairs[..a] + c.pairs[a + 1..];
    assert ChannelUnlisten(c, id).0.pairs == r;
    RemoveAtKeepsOrder(c.pairs, a, c.nextId);
    assert forall x :: 0 <= x < |r| ==> r[x] == (if x < a then c.pairs[x] else c.pairs[x + 1]);
    forall x | 0 <= x < |r| ensures r[x].0 != id {
      if x < a {
        assert c.pairs[x].0 < c.pairs[a].0;
      } else {
        assert c.pairs[a].0 < c.pairs[x + 1].0;
      }
    }
  }

  /** `UnlistenEvent` with an id that is not held returns false and changes nothing. */
  lemma UnlistenAbsent(c: Channel, id: nat)
    requires !HasId(c.pairs, id)
    ensures ChannelUnlisten(c, id) == (c, false)
  {
  }

  /** Any unlisten keeps the container invariant. */
  lemma UnlistenKeepsValid(c: Channel, id: nat)
    requires ChannelValid(c)
    ensures ChannelValid(ChannelUnlisten(c, id).0)
    ensures !HasId(ChannelUnlisten(c, id).0.pairs, id)
  {
    if HasId(c.pairs, id) {
      UnlistenPresent(c, id);
    }
  }

  // ---------------------------------------------------------------------------
  // Specification of the hub
  // ---------------------------------------------------------------------------

  /** The abstract state of `EventHub`: one channel per event type. */
  datatype Hub = Hub(
    frameAdvance: Channel,
    frameDrawn: Channel,
    setInterrupt: Channel,
    clearInterrupt: Channel,
    memoryBreakpoint: Channel,
    codeBreakpoint: Channel)
  {
    /** `GetEventContainer<T>`. */
    function Get(k: EventKind): Channel {
      match k
      case FrameAdvance => frameAdvance
      case FrameDrawn => frameDrawn
      case SetInterrupt => setInterrupt
      case ClearInterrupt => clearInterrupt
      case MemoryBreakpoint => memoryBreakpoint
      case CodeBreakpoint => codeBreakpoint
    }

    /** The hub with T's container replaced and every other container kept. */
    function Put(k: EventKind, c: Channel): (h: Hub)
      ensures h.Get(k) == c
      ensures forall j :: j != k ==> h.Get(j) == Get(j)
    {
      match k
      case FrameAdvance => this.(frameAdvance := c)
      case FrameDrawn => this.(frameDrawn := c)
      case SetInterrupt => this.(setInterrupt := c)
      case ClearInterrupt => this.(clearInterrupt := c)
      case MemoryBreakpoint => this.(memoryBreakpoint := c)
      case CodeBreakpoint => this.(codeBreakpoint := c)
    }
  }

  const EmptyHub := Hub(EmptyChannel, EmptyChannel, EmptyChannel, EmptyChannel, EmptyChannel, EmptyChannel)

  /** Two hubs with the same container for every event type are the same hub. */
  lemma HubExtensional(a: Hub, b: Hub)
    requires forall k :: a.Get(k) == b.Get(k)
    ensures a == b
  {
    assert a.Get(FrameAdvance) == b.Get(FrameAdvance);
    assert a.Get(FrameDrawn) == b.Get(FrameDrawn);
    assert a.Get(SetInterrupt) == b.Get(SetInterrupt);
    assert a.Get(ClearInterrupt) == b.Get(ClearInterrupt);
    assert a.Get(MemoryBreakpoint) == b.Get(MemoryBreakpoint);
    assert a.Get(CodeBreakpoint) == b.Get(CodeBreakpoint);
  }

  ghost predicate HubValid(h: Hub) {
    forall k :: ChannelValid(h.Get(k))
  }

  /** `GenericEventHub::ListenEvent<T>`. */
  function HubListen(h: Hub, k: EventKind, l: Listener): (r: (Hub, nat)) {
    var (c, id) := ChannelListen(h.Get(k), l);
    (h.Put(k, c), id)
  }

  /** `GenericEventHub::UnlistenEvent<T>`. */
  function HubUnlisten(h: Hub, k: EventKind, id: nat): (r: (Hub, bool)) {
    var (c, found) := ChannelUnlisten(h.Get(k), id);
    (h.Put(k, c), found)
  }

  /** `GenericEventHub::ListenEventOnce<T>`. */
  function HubListenOnce(h: Hub, k: EventKind, l: Listener): (h': Hub) {
    h.Put(k, ChannelListenOnce(h.Get(k), l))
  }

  /** One effect of a listener invoked during the emission of `k`, under id `self`. */
  function PerformEffect(h: Hub, k: EventKind, self: Option<nat>, e: Effect): (h': Hub) {
    match e
    case Listen(j, l) => HubListen(h, j, l).0
    case ListenOnce(j, l) => HubListenOnce(h, j, l)
    case Unlisten(j, id) => HubUnlisten(h, j, id).0
    case UnlistenSelf => if self.Some? then HubUnlisten(h, k, self.value).0 else h
  }

  /** The effects of one invocation, performed in order. */
  function PerformEffects(h: Hub, k: EventKind, self: Option<nat>, es: seq<Effect>): (h': Hub)
    decreases |es|
  {
    if es == [] then h
    else PerformEffect(PerformEffects(h, k, self, es[..|es| - 1]), k, self, es[|es| - 1])
  }

  /** Invoking the durable pairs of the snapshot, in order. */
  function DurablePhase(h: Hub, k: EventKind, snapshot: seq<Pair>): (h': Hub)
    decreases |snapshot|
  {
    if snapshot == [] then h
    else
      var last := snapshot[|snapshot| - 1];
      PerformEffects(DurablePhase(h, k, snapshot[..|snapshot| - 1]), k, Some(last.0), last.1.effects)
  }

  /** Invoking the swapped-out one-shot listeners, in order. */
  function OncePhase(h: Hub, k: EventKind, swapped: seq<Listener>): (h': Hub)
    decreases |swapped|
  {
    if swapped == [] then h
    else PerformEffects(OncePhase(h, k, swapped[..|swapped| - 1]), k, None, swapped[|swapped| - 1].effects)
  }

  function Durables(ps: seq<Pair>): (r: seq<Invocation>) {
    seq(|ps|, i requires 0 <= i < |ps| => Invocation(Some(ps[i].0), ps[i].1))
  }

  function Onces(ls: seq<Listener>): (r: seq<Invocation>) {
    seq(|ls|, i requires 0 <= i < |ls| => Invocation(None, ls[i]))
  }

  function Listeners(ps: seq<Pair>): (r: seq<Listener>) {
    seq(|ps|, i requires 0 <= i < |ps| => ps[i].1)
  }

  /**
   * `EmitEvent`: copy the durable pairs and invoke the copy; then swap the
   * one-shot list for an empty one and invoke what was swapped out. The
   * result is the new hub and the invocations, in the order they happen.
   */
  function Emit(h: Hub, k: EventKind): (r: (Hub, seq<Invocation>))
    ensures |r.1| >= |h.Get(k).pairs|
  {
    var snapshot := h.Get(k).pairs;
    var h1 := DurablePhase(h, k, snapshot);
    var swapped := h1.Get(k).once;
    var h2 := h1.Put(k, h1.Get(k).(once := []));
    (OncePhase(h2, k, swapped), Durables(snapshot) + Onces(swapped))
  }

  // ---------------------------------------------------------------------------
  // Properties of emission
  // ---------------------------------------------------------------------------

  /** No id is ever handed out twice, and no pair appears from nowhere:
      every pair of `h'` is one of `h` or carries an id not handed out in `h`. */
  ghost predicate Grown(h: Hub, h': Hub) {
    forall j ::
      && h'.Get(j).nextId >= h.Get(j).nextId
      && forall p :: p in h'.Get(j).pairs ==> p in h.Get(j).pairs || p.0 >= h.Get(j).nextId
  }

  lemma GrownTransitive(a: Hub, b: Hub, c: Hub)
    requires Grown(a, b) && Grown(b, c)
    ensures Grown(a, c)
  {
  }

  /** Replacing one container by a grown one grows the hub. */
  lemma PutGrown(h: Hub, k: EventKind, c: Channel)
    requires c.nextId >= h.Get(k).nextId
    requires forall p :: p in c.pairs ==> p in h.Get(k).pairs || p.0 >= h.Get(k).nextId
    ensures Grown(h, h.Put(k, c))
  {
  }

  lemma UnlistenGrown(h: Hub, k: EventKind, id: nat)
    ensures Grown(h, HubUnlisten(h, k, id).0)
  {
    var c := h.Get(k);
    var c' := ChannelUnlisten(c, id).0;
    if FirstIndex(c.pairs, id).Some? {
      var a := FirstIndex(c.pairs, id).value;
      assert c'.pairs == c.pairs[..a] + c.pairs[a + 1..];
      assert forall p :: p in c'.pairs ==> p in c.pairs;
    }
    PutGrown(h, k, c');
  }

  /** Replacing a container by a valid one keeps the hub valid. */
  lemma PutKeepsValid(h: Hub, k: EventKind, c: Channel)
    requires HubValid(h) && ChannelValid(c)
    ensures HubValid(h.Put(k, c))
  {
  }

  lemma ListenEffectInvariants(h: Hub, j: EventKind, l: Listener)
    ensures Grown(h, HubListen(h, j, l).0)
    ensures HubValid(h) ==> HubValid(HubListen(h, j, l).0)
  {
    PutGrown(h, j, ChannelListen(h.Get(j), l).0);
    if HubValid(h) {
      ListenIssuesFreshId(h.Get(j), l);
      PutKeepsValid(h, j, ChannelListen(h.Get(j), l).0);
    }
  }

  lemma UnlistenEffectInvariants(h: Hub, j: EventKind, id: nat)
    ensures Grown(h, HubUnlisten(h, j, id).0)
    ensures HubValid(h) ==> HubValid(HubUnlisten(h, j, id).0)
  {
    UnlistenGrown(h, j, id);
    if HubValid(h) {
      UnlistenKeepsValid(h.Get(j), id);
      PutKeepsValid(h, j, ChannelUnlisten(h.Get(j), id).0);
    }
  }

  lemma PerformEffectInvariants(h: Hub, k: EventKind, self: Option<nat>, e: Effect)
    ensures Grown(h, PerformEffect(h, k, self, e))
    ensures HubValid(h) ==> HubValid(PerformEffect(h, k, self, e))
  {
    match e
    case Listen(j, l) =>
      ListenEffectInvariants(h, j, l);
    case ListenOnce(j, l) =>
      PutGrown(h, j, ChannelListenOnce(h.Get(j), l));
    case Unlisten(j, id) =>
      UnlistenEffectInvariants(h, j, id);
    case UnlistenSelf =>
      if self.Some? {
        UnlistenEffectInvariants(h, k, self.value);
      }
  }

  lemma {:induction false} PerformEffectsInvariants(h: Hub, k: EventKind, self: Option<nat>, es: seq<Effect>)
    ensures Grown(h, PerformEffects(h, k, self, es))
    ensures HubValid(h) ==> HubValid(PerformEffects(h, k, self, es))
    decreases |es|
  {
    if es != [] {
      var init := PerformEffects(h, k, self, es[..|es| - 1]);
      PerformEffectsInvariants(h, k, self, es[..|es| - 1]);
      PerformEffectInvariants(init, k, self, es[|es| - 1]);
      GrownTransitive(h, init, PerformEffects(h, k, self, es));
    }
  }

  lemma {:induction false} DurablePhaseInvariants(h: Hub, k: EventKind, s: seq<Pair>)
    ensures Grown(h, DurablePhase(h, k, s))
    ensures HubValid(h) ==> HubValid(DurablePhase(h, k, s))
    decreases |s|
  {
    if s != [] {
      var last := s[|s| - 1];
      var init := DurablePhase(h, k, s[..|s| - 1]);
      DurablePhaseInvariants(h, k, s[..|s| - 1]);
      PerformEffectsInvariants(init, k, Some(last.0), last.1.effects);
      GrownTransitive(h, init, DurablePhase(h, k, s));
    }
  }

  lemma {:induction false} OncePhaseInvariants(h: Hub, k: EventKind, s: seq<Listener>)
    ensures Grown(h, OncePhase(h, k, s))
    ensures HubValid(h) ==> HubValid(OncePhase(h, k, s))
    decreases |s|
  {
    if s != [] {
      var init := OncePhase(h, k, s[..|s| - 1]);
      OncePhaseInvariants(h, k, s[..|s| - 1]);
      PerformEffectsInvariants(init, k, None, s[|s| - 1].effects);
      GrownTransitive(h, init, OncePhase(h, k, s));
    }
  }

  /** Emission keeps the invariant of every container and only ever adds
      pairs under ids handed out during it. */
  lemma EmitInvariants(h: Hub, k: EventKind)
    ensures Grown(h, Emit(h, k).0)
    ensures HubValid(h) ==> HubValid(Emit(h, k).0)
  {
    var h1 := DurablePhase(h, k, h.Get(k).pairs);
    var h2 := h1.Put(k, h1.Get(k).(once := []));
    DurablePhaseInvariants(h, k, h.Get(k).pairs);
    OncePhaseInvariants(h2, k, h1.Get(k).once);
    GrownTransitive(h, h1, h2);
    GrownTransitive(h, h2, Emit(h, k).0);
  }

  /**
   * Snapshot isolation of the durable phase: the durable listeners invoked
   * are exactly the pairs registered at entry, in registration order, each
   * once, including those unlistened during the emission; a pair registered
   * during the emission is not invoked in it; after the durable ones come
   * only one-shot invocations.
   */
  lemma EmitSnapshot(h: Hub, k: EventKind)
    requires HubValid(h)
    ensures var (h', trace) := Emit(h, k); var entry := h.Get(k).pairs;
      && |trace| >= |entry|
      && (forall i :: 0 <= i < |entry| ==> trace[i] == Invocation(Some(entry[i].0), entry[i].1))
      && (forall i :: |entry| <= i < |trace| ==> trace[i].id == None)
      && (forall p :: p in h'.Get(k).pairs && p !in entry ==>
            forall i :: 0 <= i < |trace| ==> trace[i].id != Some(p.0))
  {
    var (h', trace) := Emit(h, k);
    var entry := h.Get(k).pairs;
    EmitInvariants(h, k);
    forall p | p in h'.Get(k).pairs && p !in entry
      ensures forall i :: 0 <= i < |trace| ==> trace[i].id != Some(p.0)
    {
      forall i | 0 <= i < |trace| ensures trace[i].id != Some(p.0) {
        if i < |entry| {
          assert entry[i].0 < h.Get(k).nextId <= p.0;
        }
      }
    }
  }

  /** Durable listeners are invoked in registration order, that is, in increasing id order. */
  lemma EmitInRegistrationOrder(h: Hub, k: EventKind)
    requires HubValid(h)
    ensures var (_, trace) := Emit(h, k); var entry := h.Get(k).pairs;
      forall a, b :: 0 <= a < b < |entry| ==>
        trace[a].id.Some? && trace[b].id.Some? && trace[a].id.value < trace[b].id.value
  {
    EmitSnapshot(h, k);
  }

  /** A durable listener registered at entry is invoked exactly once in the emission. */
  lemma EmitInvokesEntryPairOnce(h: Hub, k: EventKind, a: nat)
    requires HubValid(h) && a < |h.Get(k).pairs|
    ensures var (_, trace) := Emit(h, k); var entry := h.Get(k).pairs;
      && trace[a] == Invocation(Some(entry[a].0), entry[a].1)
      && forall i :: 0 <= i < |trace| && trace[i].id == Some(entry[a].0) ==> i == a
  {
    EmitSnapshot(h, k);
  }

  lemma {:induction false} DurablePhaseSplit(h: Hub, k: EventKind, s1: seq<Pair>, s2: seq<Pair>)
    ensures DurablePhase(h, k, s1 + s2) == DurablePhase(DurablePhase(h, k, s1), k, s2)
    decreases |s2|
  {
    if s2 == [] {
      assert s1 + s2 == s1;
    } else {
      assert (s1 + s2)[..|s1 + s2| - 1] == s1 + s2[..|s2| - 1];
      assert (s1 + s2)[|s1 + s2| - 1] == s2[|s2| - 1];
      DurablePhaseSplit(h, k, s1, s2[..|s2| - 1]);
    }
  }

  /**
   * A durable listener whose last effect is to unlisten itself (the
   * "fire once, then unlisten yourself" listener of the coroutine bridge)
   * is invoked exactly once by an emission that finds it registered, and is
   * no longer registered afterwards, whatever the other listeners do.
   */
  lemma SelfUnlisteningFiresOnce(h: Hub, k: EventKind, a: nat)
    requires HubValid(h) && a < |h.Get(k).pairs|
    requires var l := h.Get(k).pairs[a].1; l.effects != [] && l.effects[|l.effects| - 1] == UnlistenSelf
    ensures var (h', trace) := Emit(h, k); var id := h.Get(k).pairs[a].0;
      && trace[a] == Invocation(Some(id), h.Get(k).pairs[a].1)
      && (forall i :: 0 <= i < |trace| && trace[i].id == Some(id) ==> i == a)
      && !HasId(h'.Get(k).pairs, id)
  {
    EmitInvokesEntryPairOnce(h, k, a);
    var entry := h.Get(k).pairs;
    var mid := DurablePhase(h, k, entry[..a + 1]);
    DurableStepUnlistensSelf(h, k, a);
    GrownAfterStep(h, k, a);
    GrownKeepsAbsent(mid, Emit(h, k).0, k, entry[a].0);
  }

  /** Right after a self-unlistening listener has run, its id is no longer registered. */
  lemma DurableStepUnlistensSelf(h: Hub, k: EventKind, a: nat)
    requires HubValid(h) && a < |h.Get(k).pairs|
    requires var l := h.Get(k).pairs[a].1; l.effects != [] && l.effects[|l.effects| - 1] == UnlistenSelf
    ensures var mid := DurablePhase(h, k, h.Get(k).pairs[..a + 1]); var id := h.Get(k).pairs[a].0;
      HubValid(mid) && !HasId(mid.Get(k).pairs, id) && id < mid.Get(k).nextId
  {
    var entry := h.Get(k).pairs;
    DurablePhaseInvariants(h, k, entry[..a]);
    assert entry[..a + 1][..a] == entry[..a];
    SelfUnlistenLast(DurablePhase(h, k, entry[..a]), k, entry[a].0, entry[a].1.effects);
  }

  /** Effects ending in `UnlistenSelf` leave the invoking id unregistered. */
  lemma SelfUnlistenLast(x: Hub, k: EventKind, id: nat, es: seq<Effect>)
    requires HubValid(x) && id < x.Get(k).nextId
    requires es != [] && es[|es| - 1] == UnlistenSelf
    ensures var y := PerformEffects(x, k, Some(id), es);
      HubValid(y) && !HasId(y.Get(k).pairs, id) && id < y.Get(k).nextId
  {
    var init := PerformEffects(x, k, Some(id), es[..|es| - 1]);
    PerformEffectsInvariants(x, k, Some(id), es[..|es| - 1]);
    UnlistenKeepsValid(init.Get(k), id);
    UnlistenGrown(init, k, id);
  }

  /** The rest of an emission, after the durable listener at index `a` has run, only grows the hub. */
  lemma GrownAfterStep(h: Hub, k: EventKind, a: nat)
    requires HubValid(h) && a < |h.Get(k).pairs|
    ensures Grown(DurablePhase(h, k, h.Get(k).pairs[..a + 1]), Emit(h, k).0)
  {
    var entry := h.Get(k).pairs;
    var mid := DurablePhase(h, k, entry[..a + 1]);
    assert entry[..a + 1] + entry[a + 1..] == entry;
    DurablePhaseSplit(h, k, entry[..a + 1], entry[a + 1..]);
    var h1 := DurablePhase(h, k, entry);
    DurablePhaseInvariants(mid, k, entry[a + 1..]);
    var h2 := h1.Put(k, h1.Get(k).(once := []));
    PutGrown(h1, k, h1.Get(k).(once := []));
    OncePhaseInvariants(h2, k, h1.Get(k).once);
    GrownTransitive(mid, h1, h2);
    GrownTransitive(mid, h2, Emit(h, k).0);
  }

  /** Growth never brings back an id below the counter that is not registered. */
  lemma GrownKeepsAbsent(x: Hub, y: Hub, k: EventKind, id: nat)
    requires Grown(x, y) && !HasId(x.Get(k).pairs, id) && id < x.Get(k).nextId
    ensures !HasId(y.Get(k).pairs, id)
  {
  }

  /** Unlistening the id just handed out restores the durable listeners:
      registering and then unregistering a listener leaves no trace but the counter. */
  lemma ListenThenUnlistenRestores(c: Channel, l: Listener)
    requires ChannelValid(c)
    ensures var (c1, id) := ChannelListen(c, l);
      ChannelUnlisten(c1, id) == (c.(nextId := c.nextId + 1), true)
  {
    var (c1, id) := ChannelListen(c, l);
    assert c1.pairs[|c.pairs|].0 == id;
    var f := FirstIndex(c1.pairs, id);
    assert f.Some?;
    assert c1.pairs[..|c.pairs|] + c1.pairs[|c.pairs| + 1..] == c.pairs;
  }

  /** The one-shot registration an effect makes for event type `j`, if any. */
  function OnceOf(j: EventKind, e: Effect): seq<Listener> {
    if e.ListenOnce? && e.kind == j then [e.listener] else []
  }

  /** The one-shot registrations made by a list of effects for event type `j`. */
  function OnceRegsOf(j: EventKind, es: seq<Effect>): seq<Listener>
    decreases |es|
  {
    if es == [] then [] else OnceRegsOf(j, es[..|es| - 1]) + OnceOf(j, es[|es| - 1])
  }

  /** The one-shot registrations for `j` made by invoking `ls` in order. */
  function OnceRegs(j: EventKind, ls: seq<Listener>): seq<Listener>
    decreases |ls|
  {
    if ls == [] then [] else OnceRegs(j, ls[..|ls| - 1]) + OnceRegsOf(j, ls[|ls| - 1].effects)
  }

  /** Only `ListenOnce` touches a one-shot list, and only by appending. */
  lemma PerformEffectOnce(h: Hub, k: EventKind, self: Option<nat>, e: Effect, j: EventKind)
    ensures PerformEffect(h, k, self, e).Get(j).once == h.Get(j).once + OnceOf(j, e)
  {
  }

  lemma {:induction false} PerformEffectsOnce(h: Hub, k: EventKind, self: Option<nat>, es: seq<Effect>, j: EventKind)
    ensures PerformEffects(h, k, self, es).Get(j).once == h.Get(j).once + OnceRegsOf(j, es)
    decreases |es|
  {
    if es != [] {
      PerformEffectsOnce(h, k, self, es[..|es| - 1], j);
      PerformEffectOnce(PerformEffects(h, k, self, es[..|es| - 1]), k, self, es[|es| - 1], j);
    }
  }

  lemma {:induction false} DurablePhaseOnce(h: Hub, k: EventKind, s: seq<Pair>, j: EventKind)
    ensures DurablePhase(h, k, s).Get(j).once == h.Get(j).once + OnceRegs(j, Listeners(s))
    decreases |s|
  {
    if s != [] {
      var last := s[|s| - 1];
      DurablePhaseOnce(h, k, s[..|s| - 1], j);
      PerformEffectsOnce(DurablePhase(h, k, s[..|s| - 1]), k, Some(last.0), last.1.effects, j);
      assert Listeners(s)[..|s| - 1] == Listeners(s[..|s| - 1]);
    }
  }

  lemma {:induction false} OncePhaseOnce(h: Hub, k: EventKind, s: seq<Listener>, j: EventKind)
    ensures OncePhase(h, k, s).Get(j).once == h.Get(j).once + OnceRegs(j, s)
    decreases |s|
  {
    if s != [] {
      OncePhaseOnce(h, k, s[..|s| - 1], j);
      PerformEffectsOnce(OncePhase(h, k, s[..|s| - 1]), k, None, s[|s| - 1].effects, j);
    }
  }

  /**
   * The one-shot phase: the one-shots swapped out are those present at entry
   * followed by those registered by the durable listeners; each is invoked
   * once, after all durable listeners, in that order. Afterwards the one-shot
   * list holds exactly the one-shots registered during the one-shot phase,
   * none of which was invoked.
   */
  lemma EmitOneShots(h: Hub, k: EventKind)
    ensures var entry := h.Get(k).pairs;
      var swapped := h.Get(k).once + OnceRegs(k, Listeners(entry));
      && Emit(h, k).1 == Durables(entry) + Onces(swapped)
      && Emit(h, k).0.Get(k).once == OnceRegs(k, swapped)
  {
    var entry := h.Get(k).pairs;
    var h1 := DurablePhase(h, k, entry);
    var h2 := h1.Put(k, h1.Get(k).(once := []));
    DurablePhaseOnce(h, k, entry, k);
    OncePhaseOnce(h2, k, h1.Get(k).once, k);
  }

  /** `HasListeners` is true exactly when emitting would invoke someone. */
  lemma HasListenersIffEmitInvokes(h: Hub, k: EventKind)
    ensures ChannelHasListeners(h.Get(k)) <==> Emit(h, k).1 != []
  {
    var entry := h.Get(k).pairs;
    EmitOneShots(h, k);
    assert |Durables(entry)| == |entry|;
    if entry == [] {
      assert Listeners(entry) == [];
      assert OnceRegs(k, Listeners(entry)) == [];
      assert |Onces(h.Get(k).once)| == |h.Get(k).once|;
    }
  }

  /** Any operation of the hub, as a caller issues it. */
  datatype HubOp =
    | DoListen(kind: EventKind, listener: Listener)
    | DoUnlisten(kind: EventKind, id: nat)
    | DoListenOnce(kind: EventKind, listener: Listener)
    | DoEmit(kind: EventKind)

  function ApplyOp(h: Hub, op: HubOp): (h': Hub) {
    match op
    case DoListen(k, l) => HubListen(h, k, l).0
    case DoUnlisten(k, id) => HubUnlisten(h, k, id).0
    case DoListenOnce(k, l) => HubListenOnce(h, k, l)
    case DoEmit(k) => Emit(h, k).0
  }

  function Run(h: Hub, ops: seq<HubOp>): (h': Hub)
    decreases |ops|
  {
    if ops == [] then h else Run(ApplyOp(h, ops[0]), ops[1..])
  }

  lemma {:induction false} RunGrows(h: Hub, ops: seq<HubOp>)
    ensures Grown(h, Run(h, ops))
    decreases |ops|
  {
    if ops != [] {
      var h1 := ApplyOp(h, ops[0]);
      match ops[0] {
        case DoListen(k, l) => PerformEffectInvariants(h, k, None, Listen(k, l));
        case DoUnlisten(k, id) => PerformEffectInvariants(h, k, None, Unlisten(k, id));
        case DoListenOnce(k, l) => PerformEffectInvariants(h, k, None, ListenOnce(k, l));
        case DoEmit(k) => EmitInvariants(h, k);
      }
      RunGrows(h1, ops[1..]);
      GrownTransitive(h, h1, Run(h, ops));
    }
  }

  /** Whatever happens between two `ListenEvent` calls on the same event
      type, the second id is larger than the first: ids are never reused. */
  lemma IdsStrictlyIncrease(h: Hub, k: EventKind, first: Listener, between: seq<HubOp>, second: Listener)
    ensures var (h1, id1) := HubListen(h, k, first);
      id1 < HubListen(Run(h1, between), k, second).1
  {
    RunGrows(HubListen(h, k, first).0, between);
  }

  /** Operations on one event type leave every other event type's container as it was. */
  lemma OtherKindsUntouched(h: Hub, op: HubOp, j: EventKind)
    requires j != op.kind
    requires !op.DoEmit?
    ensures ApplyOp(h, op).Get(j) == h.Get(j)
  {
  }

  // ---------------------------------------------------------------------------
  // The imperative model
  // ---------------------------------------------------------------------------

  /** `EventContainer<T>`: the listeners of one event type. */
  class EventContainer {
    const kind: EventKind
    var listenerPairs: seq<Pair>
    var oneTimeListeners: seq<Listener>
    var nextListenerId: nat

    ghost function Abs(): Channel
      reads this
    {
      Channel(listenerPairs, oneTimeListeners, nextListenerId)
    }

    ghost predicate Valid()
      reads this
    {
      ChannelValid(Abs())
    }

    constructor (kind: EventKind)
      ensures this.kind == kind
      ensures Valid() && Abs() == EmptyChannel
    {
      this.kind := kind;
      listenerPairs := [];
      oneTimeListeners := [];
      nextListenerId := 0;
    }

    method HasListeners() returns (b: bool)
      ensures b == ChannelHasListeners(Abs())
    {
      b := |listenerPairs| != 0 || |oneTimeListeners| != 0;
    }

    method ListenEvent(listener: Listener) returns (id: nat)
      requires Valid()
      modifies this
      ensures Valid()
      ensures (Abs(), id) == ChannelListen(old(Abs()), listener)
    {
      id := nextListenerId;
      nextListenerId := nextListenerId + 1;
      listenerPairs := listenerPairs + [(id, listener)];
    }

    method UnlistenEvent(listenerId: nat) returns (found: bool)
      requires Valid()
      modifies this
      ensures Valid()
      ensures (Abs(), found) == ChannelUnlisten(old(Abs()), listenerId)
    {
      UnlistenKeepsValid(Abs(), listenerId);
      var i := 0;
      while i < |listenerPairs|
        invariant 0 <= i <= |listenerPairs|
        invariant Abs() == old(Abs())
        invariant forall b :: 0 <= b < i ==> listenerPairs[b].0 != listenerId
      {
        if listenerPairs[i].0 == listenerId {
          assert FirstIndex(listenerPairs, listenerId) == Some(i);
          listenerPairs := listenerPairs[..i] + listenerPairs[i + 1..];
          return true;
        }
        i := i + 1;
      }
      return false;
    }

    method ListenEventOnce(listener: Listener)
      requires Valid()
      modifies this
      ensures Valid()
      ensures Abs() == ChannelListenOnce(old(Abs()), listener)
    {
      oneTimeListeners := oneTimeListeners + [listener];
    }

    /** `EmitEvent`, run as a plain sequential call. The listeners act on the
        hub this container belongs to; the result is the invocation trace. */
    method EmitEvent(hub: GenericEventHub) returns (trace: seq<Invocation>)
      requires hub.Valid() && hub.Container(kind) == this
      modifies hub.Repr()
      ensures hub.Valid()
      ensures (hub.State(), trace) == Emit(old(hub.State()), kind)
    {
      ghost var h0 := hub.State();
      // iterate over a copy, so that callbacks cannot disturb the iteration
      var pairs := listenerPairs;
      trace := InvokeDurable(hub, pairs);
      ghost var h1 := hub.State();
      // swap the one-shot listeners out for a fresh empty list
      var swapped := oneTimeListeners;
      oneTimeListeners := [];
      hub.StateAfterLocalChange(kind, h1);
      var onceTrace := InvokeOneShot(hub, swapped);
      trace := trace + onceTrace;
    }

    /** The first loop of `EmitEvent`: invoke the copied pairs in order. */
    method InvokeDurable(hub: GenericEventHub, pairs: seq<Pair>) returns (trace: seq<Invocation>)
      requires hub.Valid() && hub.Container(kind) == this
      modifies hub.Repr()
      ensures hub.Valid()
      ensures hub.State() == DurablePhase(old(hub.State()), kind, pairs)
      ensures trace == Durables(pairs)
    {
      ghost var h0 := hub.State();
      trace := [];
      var i := 0;
      while i < |pairs|
        invariant 0 <= i <= |pairs|
        invariant hub.Valid()
        invariant hub.State() == DurablePhase(h0, kind, pairs[..i])
        invariant trace == Durables(pairs[..i])
      {
        hub.Invoke(kind, Some(pairs[i].0), pairs[i].1);
        assert pairs[..i + 1][..i] == pairs[..i];
        trace := trace + [Invocation(Some(pairs[i].0), pairs[i].1)];
        i := i + 1;
      }
      assert pairs[..|pairs|] == pairs;
    }

    /** The second loop of `EmitEvent`: invoke the swapped-out one-shots in order. */
    method InvokeOneShot(hub: GenericEventHub, swapped: seq<Listener>) returns (trace: seq<Invocation>)
      requires hub.Valid() && hub.Container(kind) == this
      modifies hub.Repr()
      ensures hub.Valid()
      ensures hub.State() == OncePhase(old(hub.State()), kind, swapped)
      ensures trace == Onces(swapped)
    {
      ghost var h0 := hub.State();
      trace := [];
      var j := 0;
      while j < |swapped|
        invariant 0 <= j <= |swapped|
        invariant hub.Valid()
        invariant hub.State() == OncePhase(h0, kind, swapped[..j])
        invariant trace == Onces(swapped[..j])
      {
        hub.Invoke(kind, None, swapped[j]);
        assert swapped[..j + 1][..j] == swapped[..j];
        trace := trace + [Invocation(None, swapped[j])];
        j := j + 1;
      }
      assert swapped[..|swapped|] == swapped;
    }
  }

  /** `GenericEventHub`: one container per event type. */
  class GenericEventHub {
    const frameAdvance: EventContainer
    const frameDrawn: EventContainer
    const setInterrupt: EventContainer
    const clearInterrupt: EventContainer
    const memoryBreakpoint: EventContainer
    const codeBreakpoint: EventContainer

    ghost function Repr(): set<object> {
      {frameAdvance, frameDrawn, setInterrupt, clearInterrupt, memoryBreakpoint, codeBreakpoint}
    }

    /** `GetEventContainer<T>`. */
    function Container(k: EventKind): (c: EventContainer)
      ensures c in Repr()
    {
      match k
      case FrameAdvance => frameAdvance
      case FrameDrawn => frameDrawn
      case SetInterrupt => setInterrupt
      case ClearInterrupt => clearInterrupt
      case MemoryBreakpoint => memoryBreakpoint
      case CodeBreakpoint => codeBreakpoint
    }

    ghost predicate Valid()
      reads Repr()
    {
      && (forall k :: Container(k).kind == k)
      && (forall j, k :: j != k ==> Container(j) != Container(k))
      && (forall k :: Container(k).Valid())
    }

    ghost function State(): (h: Hub)
      reads Repr()
      ensures forall k :: h.Get(k) == Container(k).Abs()
    {
      Hub(frameAdvance.Abs(), frameDrawn.Abs(), setInterrupt.Abs(),
          clearInterrupt.Abs(), memoryBreakpoint.Abs(), codeBreakpoint.Abs())
    }

    constructor ()
      ensures Valid() && fresh(Repr())
      ensures State() == EmptyHub
    {
      frameAdvance := new EventContainer(FrameAdvance);
      frameDrawn := new EventContainer(FrameDrawn);
      setInterrupt := new EventContainer(SetInterrupt);
      clearInterrupt := new EventContainer(ClearInterrupt);
      memoryBreakpoint := new EventContainer(MemoryBreakpoint);
      codeBreakpoint := new EventContainer(CodeBreakpoint);
    }

    /** After a change confined to T's container, the hub state is the old
        one with T's container replaced. */
    lemma StateAfterLocalChange(k: EventKind, h0: Hub)
      requires forall j :: j != k ==> Container(j).Abs() == h0.Get(j)
      ensures State() == h0.Put(k, Container(k).Abs())
    {
      HubExtensional(State(), h0.Put(k, Container(k).Abs()));
    }

    method HasListeners(k: EventKind) returns (b: bool)
      requires Valid()
      ensures b == ChannelHasListeners(State().Get(k))
    {
      b := Container(k).HasListeners();
    }

    method EmitEvent(k: EventKind) returns (trace: seq<Invocation>)
      requires Valid()
      modifies Repr()
      ensures Valid()
      ensures (State(), trace) == Emit(old(State()), k)
    {
      trace := Container(k).EmitEvent(this);
    }

    method ListenEvent(k: EventKind, listener: Listener) returns (id: nat)
      requires Valid()
      modifies Container(k)
      ensures Valid()
      ensures (State(), id) == HubListen(old(State()), k, listener)
    {
      ghost var h0 := State();
      id := Container(k).ListenEvent(listener);
      StateAfterLocalChange(k, h0);
    }

    method UnlistenEvent(k: EventKind, listenerId: nat) returns (found: bool)
      requires Valid()
      modifies Container(k)
      ensures Valid()
      ensures (State(), found) == HubUnlisten(old(State()), k, listenerId)
    {
      ghost var h0 := State();
      found := Container(k).UnlistenEvent(listenerId);
      StateAfterLocalChange(k, h0);
    }

    method ListenEventOnce(k: EventKind, listener: Listener)
      requires Valid()
      modifies Container(k)
      ensures Valid()
      ensures State() == HubListenOnce(old(State()), k, listener)
    {
      ghost var h0 := State();
      Container(k).ListenEventOnce(listener);
      StateAfterLocalChange(k, h0);
    }

    /** One effect of a running listener. */
    method Perform(k: EventKind, self: Option<nat>, e: Effect)
      requires Valid()
      modifies Repr()
      ensures Valid()
      ensures State() == PerformEffect(old(State()), k, self, e)
    {
      match e
      case Listen(j, l) =>
        var _ := ListenEvent(j, l);
      case ListenOnce(j, l) =>
        ListenEventOnce(j, l);
      case Unlisten(j, id) =>
        var _ := UnlistenEvent(j, id);
      case UnlistenSelf =>
        if self.Some? {
          var _ := UnlistenEvent(k, self.value);
        }
    }

    /** Calling a listener during the emission of `k`, under id `self`. */
    method Invoke(k: EventKind, self: Option<nat>, listener: Listener)
      requires Valid()
      modifies Repr()
      ensures Valid()
      ensures State() == PerformEffects(old(State()), k, self, listener.effects)
    {
      ghost var h0 := State();
      var es := listener.effects;
      var i := 0;
      while i < |es|
        invariant 0 <= i <= |es|
        invariant Valid()
        invariant State() == PerformEffects(h0, k, self, es[..i])
      {
        Perform(k, self, es[i]);
        assert es[..i + 1][..i] == es[..i];
        i := i + 1;
      }
      assert es[..|es|] == es;
    }
  }
}
