/**
 * The input-override cache of the scripting API: `BaseManip` keeps the
 * overrides a script has set for (controller, input) slots, serves them to
 * the emulated controllers' input-override hook, forgets them according to
 * their `ClearOn` policy, and remembers the last value each slot reported.
 */
module Controller {
  import opened Wrappers
  import opened Events

  // ---------------------------------------------------------------------------
  // Values
  // ---------------------------------------------------------------------------

  /** When an override stops applying. */
  datatype ClearOn = NextPoll | NextFrame | NextOverride

  /** The enumerators' underlying values. */
  function ClearOnValue(c: ClearOn): (n: nat)
    ensures n < 3
  {
    match c
    case NextPoll => 0
    case NextFrame => 1
    case NextOverride => 2
  }

  /** The policy with a given underlying value, if there is one. */
  function ClearOnOf(n: nat): Option<ClearOn> {
    if n == 0 then Some(NextPoll) else if n == 1 then Some(NextFrame) else if n == 2 then Some(NextOverride) else None
  }

  /** Values and policies correspond one to one: exactly the values below 3 name a policy. */
  lemma ClearOnValueRoundTrip(c: ClearOn, n: nat)
    ensures ClearOnOf(ClearOnValue(c)) == Some(c)
    ensures ClearOnOf(n).Some? <==> n < 3
    ensures ClearOnOf(n).Some? ==> ClearOnValue(ClearOnOf(n).value) == n
  {
  }

  /** A control, named by its group and its name within the group. */
  datatype InputKey = InputKey(groupName: string, controlName: string)

  /** `operator==`: both names equal. */
  predicate KeyEquals(a: InputKey, b: InputKey) {
    a.groupName == b.groupName && a.controlName == b.controlName
  }

  /** Lexicographic order on strings, character by character; a proper prefix is smaller. */
  predicate StrLess(a: string, b: string)
    decreases |a|
  {
    if a == [] then b != []
    else if b == [] then false
    else a[0] < b[0] || (a[0] == b[0] && StrLess(a[1..], b[1..]))
  }

  /** `operator<`: by group name, then by control name. */
  predicate KeyLess(a: InputKey, b: InputKey) {
    StrLess(a.groupName, b.groupName) || (a.groupName == b.groupName && StrLess(a.controlName, b.controlName))
  }

  lemma KeyEqualsIsEquality(a: InputKey, b: InputKey)
    ensures KeyEquals(a, b) <==> a == b
  {
  }

  lemma {:induction false} StrLessIrreflexive(a: string)
    ensures !StrLess(a, a)
    decreases |a|
  {
    if a != [] {
      StrLessIrreflexive(a[1..]);
    }
  }

  lemma {:induction false} StrLessTransitive(a: string, b: string, c: string)
    requires StrLess(a, b) && StrLess(b, c)
    ensures StrLess(a, c)
    decreases |a|
  {
    if a != [] && a[0] == b[0] && b[0] == c[0] {
      StrLessTransitive(a[1..], b[1..], c[1..]);
    }
  }

  lemma {:induction false} StrLessTotal(a: string, b: string)
    requires a != b
    ensures StrLess(a, b) || StrLess(b, a)
    decreases |a|
  {
    if a != [] && b != [] && a[0] == b[0] {
      assert a == [a[0]] + a[1..] && b == [b[0]] + b[1..];
      StrLessTotal(a[1..], b[1..]);
    }
  }

  lemma {:induction false} StrLessAsymmetric(a: string, b: string)
    requires StrLess(a, b)
    ensures !StrLess(b, a)
    decreases |a|
  {
    if a != [] && a[0] == b[0] {
      StrLessAsymmetric(a[1..], b[1..]);
    }
  }

  /** `operator<` is a strict total order whose equivalence is `operator==`, so
      the two maps keyed by (controller, key) behave as maps keyed by equality. */
  lemma KeyLessStrictTotalOrder(a: InputKey, b: InputKey, c: InputKey)
    ensures !KeyLess(a, a)
    ensures KeyLess(a, b) && KeyLess(b, c) ==> KeyLess(a, c)
    ensures KeyLess(a, b) ==> !KeyLess(b, a)
    ensures (!KeyLess(a, b) && !KeyLess(b, a)) <==> KeyEquals(a, b)
  {
    StrLessIrreflexive(a.groupName);
    StrLessIrreflexive(a.controlName);
    if KeyLess(a, b) && KeyLess(b, c) {
      if StrLess(a.groupName, b.groupName) && StrLess(b.groupName, c.groupName) {
        StrLessTransitive(a.groupName, b.groupName, c.groupName);
      } else if a.groupName == b.groupName && b.groupName == c.groupName {
        StrLessTransitive(a.controlName, b.controlName, c.controlName);
      }
    }
    if KeyLess(a, b) {
      if StrLess(a.groupName, b.groupName) {
        StrLessAsymmetric(a.groupName, b.groupName);
        if a.groupName == b.groupName { StrLessIrreflexive(a.groupName); }
      } else {
        StrLessAsymmetric(a.controlName, b.controlName);
        StrLessIrreflexive(a.groupName);
      }
    }
    if !KeyEquals(a, b) {
      if a.groupName != b.groupName {
        StrLessTotal(a.groupName, b.groupName);
      } else {
        StrLessTotal(a.controlName, b.controlName);
      }
    }
  }

  /** `ControlState` is a double; the model takes the mathematical reals. */
  type ControlState = real

  /** One override: the value to report, when to drop it, and whether a poll has consumed it. */
  datatype InputOverride = InputOverride(state: ControlState, clearOn: ClearOn, used: bool)

  /** The map key (controller index, input key). */
  type Slot = (int, InputKey)

  // ---------------------------------------------------------------------------
  // Specification functions
  // ---------------------------------------------------------------------------

  /** `PerformInputManip` on the override map: the value to report and the new map. */
  function ResolveOverride(ov: map<Slot, InputOverride>, slot: Slot): (r: (Option<ControlState>, map<Slot, InputOverride>))
    ensures r.0.Some? <==> slot in ov
    ensures r.1.Keys <= ov.Keys
  {
    if slot !in ov then (None, ov)
    else
      var o := ov[slot].(used := true);
      if o.clearOn == NextPoll then (Some(o.state), ov - {slot})
      else (Some(o.state), ov[slot := o])
  }

  /** `NotifyFrameAdvanced` on the override map: drop the `NextFrame` overrides some poll has consumed. */
  function SweepFrame(ov: map<Slot, InputOverride>): (ov': map<Slot, InputOverride>)
    ensures ov'.Keys <= ov.Keys
  {
    map s | s in ov && !(ov[s].clearOn == NextFrame && ov[s].used) :: ov[s]
  }

  /** `Get`: the last value reported for the slot, 0 before any poll. */
  function LastSeen(seen: map<Slot, ControlState>, slot: Slot): (v: ControlState) {
    if slot in seen then seen[slot] else 0.0
  }

  /** The input-override hook: resolve the override and record the value the controller ends up using. */
  function Poll(ov: map<Slot, InputOverride>, seen: map<Slot, ControlState>, slot: Slot, orig: ControlState)
    : (r: (Option<ControlState>, map<Slot, InputOverride>, map<Slot, ControlState>))
    ensures slot in r.2 && r.2.Keys == seen.Keys + {slot}
  {
    var (res, ov') := ResolveOverride(ov, slot);
    (res, ov', seen[slot := res.GetOr(orig)])
  }

  // ---------------------------------------------------------------------------
  // Properties of the override policies
  // ---------------------------------------------------------------------------

  /** Without an override the poll reports nothing and changes nothing. */
  lemma ResolveWithoutOverride(ov: map<Slot, InputOverride>, slot: Slot)
    requires slot !in ov
    ensures ResolveOverride(ov, slot) == (None, ov)
  {
  }

  /** A `NextPoll` override is reported by exactly one poll. */
  lemma NextPollAppliesOnce(ov: map<Slot, InputOverride>, slot: Slot, v: ControlState)
    ensures var (r1, ov1) := ResolveOverride(ov[slot := InputOverride(v, NextPoll, false)], slot);
      var (r2, ov2) := ResolveOverride(ov1, slot);
      r1 == Some(v) && r2 == None && ov2 == ov1 && slot !in ov1
  {
  }

  /** A step of the emulator as far as one slot is concerned: a poll of the slot, or a frame boundary. */
  datatype Step = PollSlot | FrameBoundary

  /** The values the polls among `steps` report for `slot`, and the final override map. */
  function RunSteps(ov: map<Slot, InputOverride>, slot: Slot, steps: seq<Step>): (seq<Option<ControlState>>, map<Slot, InputOverride>)
    decreases |steps|
  {
    if steps == [] then ([], ov)
    else match steps[0]
      case PollSlot =>
        var (r, ov1) := ResolveOverride(ov, slot);
        var (rs, ov2) := RunSteps(ov1, slot, steps[1..]);
        ([r] + rs, ov2)
      case FrameBoundary => RunSteps(SweepFrame(ov), slot, steps[1..])
  }

  function CountPolls(steps: seq<Step>): nat {
    if steps == [] then 0 else (if steps[0] == PollSlot then 1 else 0) + CountPolls(steps[1..])
  }

  /** A `NextOverride` override is reported by every poll, across any number of frames. */
  lemma {:induction false} NextOverrideSticks(ov: map<Slot, InputOverride>, slot: Slot, steps: seq<Step>)
    requires slot in ov && ov[slot].clearOn == NextOverride
    ensures var (rs, ov') := RunSteps(ov, slot, steps);
      && |rs| == CountPolls(steps)
      && (forall i :: 0 <= i < |rs| ==> rs[i] == Some(ov[slot].state))
      && slot in ov' && ov'[slot].state == ov[slot].state && ov'[slot].clearOn == NextOverride
    decreases |steps|
  {
    if steps != [] {
      match steps[0]
      case PollSlot =>
        NextOverrideSticks(ResolveOverride(ov, slot).1, slot, steps[1..]);
      case FrameBoundary =>
        NextOverrideSticks(SweepFrame(ov), slot, steps[1..]);
    }
  }

  /** Within one frame a `NextFrame` override is reported by every poll. */
  lemma {:induction false} NextFrameHoldsWithinFrame(ov: map<Slot, InputOverride>, slot: Slot, n: nat)
    requires slot in ov && ov[slot].clearOn == NextFrame
    ensures var steps := seq(n, _ => PollSlot); var (rs, ov') := RunSteps(ov, slot, steps);
      && |rs| == n
      && (forall i :: 0 <= i < n ==> rs[i] == Some(ov[slot].state))
      && ov' == (if n == 0 then ov else ov[slot := ov[slot].(used := true)])
    decreases n
  {
    var steps := seq(n, _ => PollSlot);
    if n > 0 {
      assert steps[0] == PollSlot && steps[1..] == seq(n - 1, _ => PollSlot);
      var ov1 := ResolveOverride(ov, slot).1;
      NextFrameHoldsWithinFrame(ov1, slot, n - 1);
      if n - 1 > 0 {
        assert ov1[slot := ov1[slot].(used := true)] == ov1;
      }
    }
  }

  /** A `NextFrame` override that one or more polls consumed during a frame is
      gone after the frame boundary, and the next poll falls through to the
      controller; the other slots' overrides come through the boundary as the
      sweep leaves them. */
  lemma NextFrameLifetime(ov: map<Slot, InputOverride>, slot: Slot, n: nat)
    requires slot in ov && ov[slot].clearOn == NextFrame && n >= 1
    ensures var ov' := SweepFrame(RunSteps(ov, slot, seq(n, _ => PollSlot)).1);
      && slot !in ov'
      && ResolveOverride(ov', slot) == (None, ov')
      && ov' == SweepFrame(ov) - {slot}
  {
    NextFrameHoldsWithinFrame(ov, slot, n);
  }

  /** A `NextFrame` override nobody polled survives the frame boundary. */
  lemma UnusedNextFrameSurvives(ov: map<Slot, InputOverride>, slot: Slot)
    requires slot in ov && ov[slot].clearOn == NextFrame && !ov[slot].used
    ensures slot in SweepFrame(ov) && SweepFrame(ov)[slot] == ov[slot]
  {
  }

  /** The frame boundary removes exactly the consumed `NextFrame` overrides, keeps
      the rest untouched, and a second boundary in a row removes nothing more. */
  lemma SweepFrameExact(ov: map<Slot, InputOverride>, s: Slot)
    ensures s in SweepFrame(ov) <==> s in ov && !(ov[s].clearOn == NextFrame && ov[s].used)
    ensures s in SweepFrame(ov) ==> SweepFrame(ov)[s] == ov[s]
    ensures SweepFrame(SweepFrame(ov)) == SweepFrame(ov)
  {
  }

  /** Polling or setting one slot leaves every other slot's override as it was,
      and the frame boundary decides each slot on that slot's entry alone. */
  lemma SlotsIndependent(ov: map<Slot, InputOverride>, slot: Slot, other: Slot, o: InputOverride)
    requires other != slot
    ensures var ov' := ResolveOverride(ov, slot).1; (other in ov' <==> other in ov) && (other in ov ==> ov'[other] == ov[other])
    ensures var ov' := ov[slot := o]; (other in ov' <==> other in ov) && (other in ov ==> ov'[other] == ov[other])
    ensures var sw, sw' := SweepFrame(ov), SweepFrame(ov[slot := o]);
      (other in sw' <==> other in sw) && (other in sw ==> sw'[other] == sw[other])
  {
  }

  /** After the hook has run for a slot, `Get` reports what the controller used:
      the override's value if there was one, the original reading otherwise.
      The other slots' last values are unchanged. */
  lemma GetReportsLastPoll(ov: map<Slot, InputOverride>, seen: map<Slot, ControlState>, slot: Slot, orig: ControlState, other: Slot)
    ensures var (r, _, seen') := Poll(ov, seen, slot, orig);
      && LastSeen(seen', slot) == (if slot in ov then ov[slot].state else orig)
      && r.GetOr(orig) == LastSeen(seen', slot)
      && (other != slot ==> LastSeen(seen', other) == LastSeen(seen, other))
  {
  }

  /** After `Clear` a poll passes the controller's own reading through. */
  lemma ClearedPollPassesThrough(seen: map<Slot, ControlState>, slot: Slot, orig: ControlState)
    ensures Poll(map[], seen, slot, orig) == (None, map[], seen[slot := orig])
  {
  }

  // ---------------------------------------------------------------------------
  // Finding: the value of a `NextPoll` override is read after its entry is erased
  // ---------------------------------------------------------------------------

  /**
   * `PerformInputManip` as written: it keeps a reference into the map entry,
   * erases the entry when the policy is `NextPoll`, and then reads the state
   * through the reference. The node has been released by then; `freed` stands
   * for whatever that storage holds at the moment of the read.
   */
  function ResolveAsWritten(ov: map<Slot, InputOverride>, slot: Slot, freed: ControlState): (r: (Option<ControlState>, map<Slot, InputOverride>)) {
    if slot !in ov then (None, ov)
    else
      var o := ov[slot].(used := true);
      if o.clearOn == NextPoll then (Some(freed), ov - {slot})
      else (Some(o.state), ov[slot := o])
  }

  /** As written, the value a `NextPoll` override reports is not the value that was set. */
  lemma NextPollReadsReleasedEntry()
    ensures var slot := (0, InputKey("Buttons", "A"));
      var ov := map[slot := InputOverride(1.0, NextPoll, false)];
      ResolveAsWritten(ov, slot, 0.0).0 == Some(0.0) && ResolveOverride(ov, slot).0 == Some(1.0)
  {
  }

  /** The two agree everywhere except in what a `NextPoll` poll reports. */
  lemma ResolveAsWrittenDiffersOnlyOnNextPoll(ov: map<Slot, InputOverride>, slot: Slot, freed: ControlState)
    ensures ResolveAsWritten(ov, slot, freed).1 == ResolveOverride(ov, slot).1
    ensures !(slot in ov && ov[slot].clearOn == NextPoll) ==> ResolveAsWritten(ov, slot, freed) == ResolveOverride(ov, slot)
  {
  }

  // ---------------------------------------------------------------------------
  // The frame-advance listener
  // ---------------------------------------------------------------------------

  /** The listener `BaseManip` registers for `FrameAdvance`; `token` identifies
      the manipulator (its closure calls that manipulator's `NotifyFrameAdvanced`).
      It does nothing to the hub itself. */
  function FrameListener(token: nat): Listener {
    Listener(token, [])
  }

  /** While registered, a manipulator's frame listener runs exactly once per `FrameAdvance` emission. */
  lemma FrameListenerRunsOncePerFrame(h: Hub, id: nat, token: nat)
    requires HubValid(h) && (id, FrameListener(token)) in h.Get(FrameAdvance).pairs
    ensures var (_, trace) := Emit(h, FrameAdvance);
      && (exists i :: 0 <= i < |trace| && trace[i] == Invocation(Some(id), FrameListener(token)))
      && (forall i, j :: 0 <= i < |trace| && 0 <= j < |trace| && trace[i].id == Some(id) && trace[j].id == Some(id) ==> i == j)
  {
    var a :| 0 <= a < |h.Get(FrameAdvance).pairs| && h.Get(FrameAdvance).pairs[a] == (id, FrameListener(token));
    EmitInvokesEntryPairOnce(h, FrameAdvance, a);
  }

  /** Constructing a manipulator and destroying it again leaves the `FrameAdvance`
      listeners as they were; only the id counter has moved on. */
  lemma ManipLifetimeRestoresListeners(h: Hub, token: nat)
    requires HubValid(h)
    ensures var (h1, id) := HubListen(h, FrameAdvance, FrameListener(token));
      HubUnlisten(h1, FrameAdvance, id) == (h.Put(FrameAdvance, h.Get(FrameAdvance).(nextId := h.Get(FrameAdvance).nextId + 1)), true)
  {
    ListenThenUnlistenRestores(h.Get(FrameAdvance), FrameListener(token));
  }

  // ---------------------------------------------------------------------------
  // The imperative model
  // ---------------------------------------------------------------------------

  /** `BaseManip`: the overrides and last-seen values of one family of controllers. */
  class BaseManip {
    var overrides: map<Slot, InputOverride>
    var lastSeenInput: map<Slot, ControlState>
    const eventHub: GenericEventHub
    const frameAdvancedListener: nat
    /** How many controllers got the input-override hook installed. */
    const controllerCount: nat
    /** Identifies this manipulator's frame listener. */
    const token: nat

    /** Registers the frame listener; installing the per-controller hooks is
        modelled by `InputOverrideHook` being callable for indices below `controllerCount`. */
    constructor (eventHub: GenericEventHub, controllerCount: nat, token: nat)
      requires eventHub.Valid()
      modifies eventHub.Container(FrameAdvance)
      ensures eventHub.Valid()
      ensures this.eventHub == eventHub && this.controllerCount == controllerCount && this.token == token
      ensures overrides == map[] && lastSeenInput == map[]
      ensures (eventHub.State(), frameAdvancedListener) == HubListen(old(eventHub.State()), FrameAdvance, FrameListener(token))
    {
      this.eventHub := eventHub;
      this.controllerCount := controllerCount;
      this.token := token;
      overrides := map[];
      lastSeenInput := map[];
      var id := eventHub.ListenEvent(FrameAdvance, FrameListener(token));
      frameAdvancedListener := id;
    }

    /** The destructor: unlisten the id the constructor was given. */
    method Destroy()
      requires eventHub.Valid()
      modifies eventHub.Container(FrameAdvance)
      ensures eventHub.Valid()
      ensures eventHub.State() == HubUnlisten(old(eventHub.State()), FrameAdvance, frameAdvancedListener).0
    {
      var _ := eventHub.UnlistenEvent(FrameAdvance, frameAdvancedListener);
    }

    method NotifyFrameAdvanced()
      modifies this
      ensures overrides == SweepFrame(old(overrides))
      ensures lastSeenInput == old(lastSeenInput)
    {
      overrides := SweepFrame(overrides);
    }

    method PerformInputManip(controllerId: int, inputKey: InputKey, origState: ControlState) returns (r: Option<ControlState>)
      modifies this
      ensures (r, overrides) == ResolveOverride(old(overrides), (controllerId, inputKey))
      ensures lastSeenInput == old(lastSeenInput)
    {
      var slot := (controllerId, inputKey);
      if slot !in overrides {
        return None;
      }
      var inputOverride := overrides[slot].(used := true);
      overrides := overrides[slot := inputOverride];
      if inputOverride.clearOn == NextPoll {
        overrides := overrides - {slot};
        assert overrides == old(overrides) - {slot};
      }
      r := Some(inputOverride.state);
    }

    method Set(controllerId: int, inputKey: InputKey, state: ControlState, clearOn: ClearOn)
      modifies this
      ensures overrides == old(overrides)[(controllerId, inputKey) := InputOverride(state, clearOn, false)]
      ensures lastSeenInput == old(lastSeenInput)
    {
      overrides := overrides[(controllerId, inputKey) := InputOverride(state, clearOn, false)];
    }

    method Get(controllerId: int, inputKey: InputKey) returns (state: ControlState)
      ensures state == LastSeen(lastSeenInput, (controllerId, inputKey))
    {
      var slot := (controllerId, inputKey);
      if slot !in lastSeenInput {
        return 0.0;
      }
      state := lastSeenInput[slot];
    }

    method Clear()
      modifies this
      ensures overrides == map[]
      ensures lastSeenInput == old(lastSeenInput)
    {
      overrides := map[];
    }

    /** The hook installed on controller `i`, called whenever that controller reads an input. */
    method InputOverrideHook(i: int, groupName: string, controlName: string, origState: ControlState)
      returns (manip: Option<ControlState>)
      requires 0 <= i < controllerCount
      modifies this
      ensures (manip, overrides, lastSeenInput) == Poll(old(overrides), old(lastSeenInput), (i, InputKey(groupName, controlName)), origState)
    {
      var inputKey := InputKey(groupName, controlName);
      manip := PerformInputManip(i, inputKey, origState);
      lastSeenInput := lastSeenInput[(i, inputKey) := manip.GetOr(origState)];
    }
  }
}
