# Dolphin scripting API core: event hub, input overrides, event-module bookkeeping

This project is a Dafny model of the in-memory core of Dolphin's scripting
API, with proofs about it.

- **Event hub** (`Events.dfy`, after `Core/API/Events.h`). An
  `EventContainer` holds the listeners of one event type:
  - durable listeners, kept as (id, listener) pairs in registration order;
  - one-shot listeners, which have no id.

  Listener ids come from a counter that only grows. `GenericEventHub` sends
  each operation on event type T to T's container. A listener is an opaque
  callable. The model records only the hub operations it performs when
  invoked (`Effect`), which lets emission be specified exactly: `Emit` copies
  the durable pairs, invokes that copy, swaps the one-shot list out for an
  empty one, and invokes the swapped-out list. The classes `EventContainer`
  and `GenericEventHub` keep the source's fields. Each method is proved to
  take the abstract state exactly where the specification function says.
- **Input overrides** (`Controller.dfy`, after `Core/API/Controller.h` and
  `Controller.cpp`). `BaseManip` keeps two maps keyed by (controller index,
  `InputKey`):
  - the overrides a script has set, each with a `ClearOn` policy and a
    `used` flag;
  - the value each slot last reported.

  It resolves overrides when a controller polls, drops them by policy at
  each frame boundary, and has a frame-advance listener registered on the
  hub for as long as it lives.
- **Event-module bookkeeping** (`EventModule.dfy`, after
  `Scripting/Python/Modules/eventmodule.cpp`). `EventModuleState` keeps, for
  each of the four tracked event types, the ids of the listeners it
  registered. It covers:
  - `AddCallback`, which validates and registers Python callbacks;
  - the coroutine bridge: it decodes the await tuple a coroutine yields and
    registers a listener that resumes the coroutine once and then
    unregisters itself;
  - `Reset`, which unregisters everything the module registered.

  Python objects appear only as what the module can observe of them.
- `Wrappers.dfy` holds `Option` and `Result`.

## Model

| member | source | states |
|---|---|---|
| Events.FirstIndex | Source/Core/Core/API/Events.h:111-114 | the position `UnlistenEvent`'s search stops at holds the id and no earlier pair does; no position exactly when no pair holds the id |
| Events.ListenIssuesFreshId | Source/Core/Core/API/Events.h:102-107 | the id returned is the old counter, the counter goes up by one, the pair is appended at the end, the id was not held and exceeds every id held, one-shots are untouched, and the container invariant is kept |
| Events.UnlistenPresent | Source/Core/Core/API/Events.h:109-117 | with an id that is held, it returns true, removes exactly one pair holding it, keeps the other pairs in order, leaves no pair holding the id, and leaves one-shots and counter unchanged |
| Events.UnlistenAbsent | Source/Core/Core/API/Events.h:111-119 | with an id not held, it returns false and the container (both lists and the counter) is unchanged |
| Events.UnlistenKeepsValid | Source/Core/Core/API/Events.h:109-120 | every unlisten keeps ids strictly increasing and below the counter, and afterwards no pair holds the id |
| Events.EmitSnapshot | Source/Core/Core/API/Events.h:89-91 | the emission first invokes exactly the pairs registered at entry, in order and with their ids, including any unlistened meanwhile; everything after them is a one-shot invocation; a pair registered during the emission is not invoked in it |
| Events.EmitInRegistrationOrder | Source/Core/Core/API/Events.h:89-91 | durable invocations follow strictly increasing ids, that is, registration order |
| Events.EmitInvokesEntryPairOnce | Source/Core/Core/API/Events.h:89-91 | a durable listener present at entry is invoked exactly once in the emission |
| Events.EmitOneShots | Source/Core/Core/API/Events.h:94-97 | the listeners swapped out are the one-shots present at entry followed by those the durable listeners registered; the trace is the durable invocations and then each swapped one-shot once, in order; afterwards the one-shot list holds exactly those registered during the one-shot phase |
| Events.SelfUnlisteningFiresOnce | Source/Core/Core/API/Events.h:89-91 | a listener registered at entry whose last effect unlistens its own id is invoked exactly once, and no pair holds its id after the emission, whatever other listeners do |
| Events.EmitInvariants | Source/Core/Core/API/Events.h:72-100 | emission keeps every container's invariant, never lowers a counter, and adds pairs only under ids issued during it |
| Events.HasListenersIffEmitInvokes | Source/Core/Core/API/Events.h:67-70 | `HasListeners` is true exactly when the durable or the one-shot list is non-empty, that is, exactly when an emission would invoke someone |
| Events.ListenThenUnlistenRestores | Source/Core/Core/API/Events.h:102-120 | unlistening the id just issued finds it and restores both lists; only the counter has moved on |
| Events.RunGrows | Source/Core/Core/API/Events.h:104 | any sequence of hub operations never lowers a counter and never brings back an issued id under a new pair |
| Events.IdsStrictlyIncrease | Source/Core/Core/API/Events.h:102-107 | whatever happens between two `ListenEvent` calls on one event type, the second id is larger than the first: ids are never reused |
| Events.OtherKindsUntouched | Source/Core/Core/API/Events.h:144-193 | listen, unlisten and listen-once on event type T leave every other type's container unchanged |
| Events.Hub.Put | Source/Core/Core/API/Events.h:187-193 | replacing T's container leaves every other container as it was |
| Events.EventContainer.constructor | Source/Core/Core/API/Events.h:133-135 | a new container has no listeners and its counter at 0 |
| Events.EventContainer.HasListeners | Source/Core/Core/API/Events.h:67-70 | the result is whether either list is non-empty |
| Events.EventContainer.ListenEvent | Source/Core/Core/API/Events.h:102-107 | the new state and returned id are those of `ChannelListen`: the counter is returned, then incremented, and the pair is appended |
| Events.EventContainer.UnlistenEvent | Source/Core/Core/API/Events.h:109-120 | the search loop removes the first pair holding the id and returns true, or returns false with nothing changed, as `ChannelUnlisten` says |
| Events.EventContainer.ListenEventOnce | Source/Core/Core/API/Events.h:122-125 | the listener is appended to the one-shot list |
| Events.EventContainer.EmitEvent | Source/Core/Core/API/Events.h:72-100 | the hub's new state and the invocation trace are those of `Emit` |
| Events.EventContainer.InvokeDurable | Source/Core/Core/API/Events.h:89-91 | invokes the copied pairs in order; the hub ends in `DurablePhase` of the copy |
| Events.EventContainer.InvokeOneShot | Source/Core/Core/API/Events.h:94-97 | invokes the swapped-out one-shots in order; the hub ends in `OncePhase` of them |
| Events.GenericEventHub.constructor | Source/Core/Core/API/Events.h:193 | six fresh, distinct, empty containers |
| Events.GenericEventHub.HasListeners | Source/Core/Core/API/Events.h:144-148 | T's container's answer |
| Events.GenericEventHub.EmitEvent | Source/Core/Core/API/Events.h:150-154 | state and trace as `Emit` of T |
| Events.GenericEventHub.ListenEvent | Source/Core/Core/API/Events.h:156-160 | only T's container changes, as `ChannelListen` says |
| Events.GenericEventHub.UnlistenEvent | Source/Core/Core/API/Events.h:169-173 | only T's container changes, as `ChannelUnlisten` says |
| Events.GenericEventHub.ListenEventOnce | Source/Core/Core/API/Events.h:175-179 | only T's container changes, as `ChannelListenOnce` says |
| Events.GenericEventHub.Invoke | Source/Core/Core/API/Events.h:91 | calling a listener performs its effects on the live hub, in order |
| Controller.ClearOnValueRoundTrip | Source/Core/Core/API/Controller.h:15-20 | `ClearOn` has exactly three values, 0, 1 and 2, one per policy |
| Controller.KeyEqualsIsEquality | Source/Core/Core/API/Controller.h:107-110 | `==` holds exactly when both names are equal |
| Controller.KeyLessStrictTotalOrder | Source/Core/Core/API/Controller.h:112-116 | lexicographic `<` on (group, control) is irreflexive, transitive and asymmetric, and neither `a<b` nor `b<a` exactly when `a == b` |
| Controller.StrLessTotal | Source/Core/Core/API/Controller.h:114-115 | for distinct names one of the two orders holds |
| Controller.ResolveWithoutOverride | Source/Core/Core/API/Controller.cpp:65-69 | without an override the poll returns none and the map is unchanged |
| Controller.NextPollAppliesOnce | Source/Core/Core/API/Controller.cpp:70-77 | after `Set(..., NextPoll)` the first poll returns the value and erases the entry, and the second returns none |
| Controller.NextOverrideSticks | Source/Core/Core/API/Controller.cpp:55-77 | a `NextOverride` entry is returned by every poll across any mix of polls and frame boundaries, and stays |
| Controller.NextFrameHoldsWithinFrame | Source/Core/Core/API/Controller.cpp:70-77 | within a frame every poll of a `NextFrame` entry returns its value; the entry stays with `used` set once polled |
| Controller.NextFrameLifetime | Source/Core/Core/API/Controller.cpp:55-77 | a `NextFrame` override polled any number of times (at least once) during a frame is gone after the frame boundary, the next poll falls through to the controller, and the other slots come through the boundary as the sweep alone decides |
| Controller.UnusedNextFrameSurvives | Source/Core/Core/API/Controller.cpp:57-59 | an unused `NextFrame` entry survives the boundary unchanged |
| Controller.SweepFrameExact | Source/Core/Core/API/Controller.cpp:55-60 | the boundary removes exactly the used `NextFrame` entries, keeps every other entry unchanged, and a second boundary removes nothing more |
| Controller.SlotsIndependent | Source/Core/Core/API/Controller.h:140-141 | polling or setting one (controller, key) slot leaves every other slot's entry as it was, and whether the frame boundary keeps a slot depends on that slot's entry alone |
| Controller.GetReportsLastPoll | Source/Core/Core/API/Controller.cpp:34-41 | after the hook runs, `Get` returns the override's value if there was one, otherwise the original reading, which is also what the hook returned; other slots' last values are unchanged |
| Controller.ClearedPollPassesThrough | Source/Core/Core/API/Controller.h:134 | after `Clear`, a poll returns none and records the original reading |
| Controller.NextPollReadsReleasedEntry | Source/Core/Core/API/Controller.cpp:70-77 | as written, the value a `NextPoll` poll reports is whatever the released entry holds, which need not be the value set |
| Controller.ResolveAsWrittenDiffersOnlyOnNextPoll | Source/Core/Core/API/Controller.cpp:70-77 | the as-written poll and the corrected one produce the same map, and the same result except for `NextPoll` entries |
| Controller.FrameListenerRunsOncePerFrame | Source/Core/Core/API/Controller.cpp:27-28 | while registered, a manipulator's frame listener is invoked exactly once per `FrameAdvance` emission |
| Controller.ManipLifetimeRestoresListeners | Source/Core/Core/API/Controller.cpp:23-53 | construction then destruction finds and removes the same id and restores the `FrameAdvance` listeners |
| Controller.BaseManip.constructor | Source/Core/Core/API/Controller.cpp:23-43 | registers one `FrameAdvance` listener and records its id; both maps start empty |
| Controller.BaseManip.Destroy | Source/Core/Core/API/Controller.cpp:45-53 | unlistens the id recorded at construction |
| Controller.BaseManip.NotifyFrameAdvanced | Source/Core/Core/API/Controller.cpp:55-60 | the overrides become `SweepFrame` of the old ones; last-seen values are untouched |
| Controller.BaseManip.PerformInputManip | Source/Core/Core/API/Controller.cpp:62-78 | result and overrides are as `ResolveOverride` says (the corrected read); last-seen values are untouched |
| Controller.BaseManip.Set | Source/Core/Core/API/Controller.cpp:80-83 | the slot's entry becomes {value, policy, unused}, replacing any earlier one; nothing else changes |
| Controller.BaseManip.Get | Source/Core/Core/API/Controller.cpp:85-93 | the recorded last value, or 0 for a slot never polled; nothing changes |
| Controller.BaseManip.Clear | Source/Core/Core/API/Controller.h:134 | overrides emptied; last-seen values kept |
| Controller.BaseManip.InputOverrideHook | Source/Core/Core/API/Controller.cpp:34-41 | resolves the override, records the value used as last seen, and returns the resolution unchanged |
| EventModule.SchedulerNamesRoundTrip | Source/Core/Scripting/Python/Modules/eventmodule.cpp:282-298 | a scheduler exists for exactly the four names; the lookup and the awaitable name of an event type are inverse to each other |
| EventModule.GetCoroutineScheduler | Source/Core/Scripting/Python/Modules/eventmodule.cpp:282-298 | every scheduler found is for a tracked event type |
| EventModule.AwaitablesDecode | Source/Core/Scripting/Python/Modules/eventmodule.cpp:37-63 | what the embedded awaitables yield is accepted and scheduled on their event |
| EventModule.DecodedIsAwaitable | Source/Core/Scripting/Python/Modules/eventmodule.cpp:37-63 | any yielded value that is accepted is a three-item tuple of the magic string, one of the four names and an arbitrary third item |
| EventModule.DecodeAwaitRejects | Source/Core/Scripting/Python/Modules/eventmodule.cpp:56-61 | a well-formed tuple naming an unknown event is rejected with that name |
| EventModule.CallbackListenerRuns | Source/Core/Scripting/Python/Modules/eventmodule.cpp:151-178 | the callback's listener first does what the call of the callback does, then starts the coroutine the call returned (nothing more when it returned none); it never unregisters itself, so it stays for later emissions |
| EventModule.CoroutineListenerUnlistensItself | Source/Core/Scripting/Python/Modules/eventmodule.cpp:194-222 | the coroutine listener resumes the coroutine and then ends by unlistening its own id |
| EventModule.CoroutineResumedOncePerAwait | Source/Core/Scripting/Python/Modules/eventmodule.cpp:206-224 | an emission resumes a waiting coroutine exactly once and leaves its listener unregistered; every durable invocation carries an id issued before the emission, so what the coroutine awaits next is not resumed by the same emission |
| EventModule.RemoveFirstIsWithout | Source/Core/Scripting/Python/Modules/eventmodule.cpp:96-97 | with unique ids, unlistening an id removes every pair holding it |
| EventModule.UnlistenClearsOneMore | Source/Core/Scripting/Python/Modules/eventmodule.cpp:96-97 | one iteration of `Reset`'s loop extends the set of ids removed by the id unlistened |
| EventModule.ResetRemovesModuleListeners | Source/Core/Scripting/Python/Modules/eventmodule.cpp:91-103 | after `Reset`, a tracked type's pairs are exactly the old ones whose ids were not tracked; one-shots, counters and untracked types are unchanged; the hub stays valid |
| EventModule.EventModuleState.constructor | Source/Core/Scripting/Python/Modules/eventmodule.cpp:80-89 | four empty tracked sets |
| EventModule.EventModuleState.NoteActiveListenerId | Source/Core/Scripting/Python/Modules/eventmodule.cpp:104-108 | inserts into T's set only |
| EventModule.EventModuleState.ForgetActiveListenerId | Source/Core/Scripting/Python/Modules/eventmodule.cpp:109-113 | erases from T's set only |
| EventModule.EventModuleState.ResetKind | Source/Core/Scripting/Python/Modules/eventmodule.cpp:95-99 | unlistens every tracked id of T, in any order, so T's pairs lose exactly those ids; T's set becomes empty |
| EventModule.EventModuleState.Reset | Source/Core/Scripting/Python/Modules/eventmodule.cpp:91-103 | the hub becomes `ResetHub` of the old state and every tracked set is empty |
| EventModule.EventModuleState.AddCallback | Source/Core/Scripting/Python/Modules/eventmodule.cpp:134-185 | None is rejected with ValueError and a non-callable with TypeError, both before anything changes; a callable is registered as one durable listener, its id noted and returned |
| EventModule.EventModuleState.ScheduleCoroutine | Source/Core/Scripting/Python/Modules/eventmodule.cpp:186-225 | registers the self-unlistening coroutine listener and notes its id |
| EventModule.EventModuleState.HandleCoroutine | Source/Core/Scripting/Python/Modules/eventmodule.cpp:32-64 | a malformed tuple, a wrong magic string or an unknown name register nothing and change nothing; otherwise the rest of the coroutine is scheduled on the named event |
| EventModule.EventModuleState.HandleNewCoroutine | Source/Core/Scripting/Python/Modules/eventmodule.cpp:66-78 | a finished coroutine changes nothing; otherwise its first yield is handled, and the hub ends as the resumption effects say |
| EventModule.EventModuleState.RunCoroutineListener | Source/Core/Scripting/Python/Modules/eventmodule.cpp:194-222 | the listener body resumes the coroutine, forgets its id and unlistens it; the hub ends as the listener's effects say, and neither the hub nor the tracked sets hold the id afterwards |

## Left out

- `Core::RunOnCPUThread` and `m_listeners_iterate_mutex` (Events.h:83-99, 127-132) are thread marshalling and locking. Emission is modelled as a plain sequential call. `TickListeners` and `TickAllListeners` only take that lock, so they are not modelled.
- Emission from inside a listener is not modelled: listener effects are limited to listen, listen-once and unlisten. No listener in the modelled code emits. If a listener re-emitted its own event type, `EmitEvent` would lock the `std::mutex` that emission already holds (Events.h:87), which is undefined behaviour and in practice a deadlock. Emitting another type from a listener is allowed by the source, since that takes another container's mutex and `RunOnCPUThread` runs inline on the CPU thread, but the model does not capture such nested emissions.
- The `ListenEvent` overload taking a plain C function (Events.h:162-167) is the same operation as `ListenEvent`.
- Event payloads and the mapping functions that turn them into Python arguments (eventmodule.cpp:226-280) are not modelled. The same goes for refcounting, thread states, `PyErr_Print`, the log lines, and the loading of the embedded Python code (eventmodule.cpp:300-330). The model's `Result` error carries what the log line would say.
- `AddCallback` returns the id through `Py_BuildValue("i", …)` from a 64-bit field, so the id would be truncated past `INT_MAX`. Ids are unbounded naturals here, and the 64-bit counter's overflow is not modelled either.
- A resumption of a coroutine is modelled only as the registration of its next await (`ResumeEffects`). Hub operations the coroutine's own Python code performs while it runs are not modelled. That covers registering callbacks, awaiting further events and calling `_dolphin_reset`, whether they happen between a callback's return and the first yield or between later yields.
- Python callables and coroutines are opaque tokens. A callable's behaviour is the hub effects its call performs plus the coroutine it may return. A coroutine is the sequence of values its resumptions yield, and an exception inside it counts as finishing. The value sent into a coroutine, which is the event's arguments, is not modelled.
- In the emission model, the listener of `AddCallback` and that of `ScheduleCoroutine` act on the hub only. Their updates of the tracked id sets are proved in the imperative bodies instead (`AddCallback`, `RunCoroutineListener`).
- Controller.BaseManip.constructor: the frame listener it registers has no hub effect in the model. That calling it runs `NotifyFrameAdvanced` is carried only by its token, and `NotifyFrameAdvanced` is modelled as a separate method.
- Controller.BaseManip.Destroy: only unlistens the frame listener. The source uninstalls none of the controllers' input hooks, because that loop is commented out (Controller.cpp:48-52). So `InputOverrideHook` stays callable after `Destroy` in the model, as in the source.
- `Reset` iterates a `std::set` in ascending order. `ResetKind` picks ids in any order, and its result does not depend on the order.
- The `"s"` format also fails on strings that cannot be encoded as UTF-8. Strings are sequences of characters here, so only the embedded-NUL failure is modelled.
- The `GetGCManip` … `GetGBAManip` singletons (Controller.cpp:95-175) and the `InputKey` constant table (Controller.cpp:183-261) are not modelled. The table's strings come from headers outside this model, so keys are abstract pairs of strings. `InputKey` compares `std::string_view`s by bytes, which for UTF-8 text agrees with the character order used here.
- Installing the hook on real controllers with `SetInputOverrideFunction` is not modelled. `InputOverrideHook` is the installed lambda, callable for indices below the controller count.
- `ControlState` is a `double`; it is modelled as `real`, since values are stored and returned but never computed on.
- controllermodule.cpp, Force/Tilt, Memory/Registers and emulationmodule.cpp are not part of this model.
- One-shots registered during emission: a one-shot registered by a *durable* listener lands in the list that is then swapped out, so it is invoked in the same emission. Only one-shots registered during the one-shot phase wait for the next emission. `EmitOneShots` states this precisely.

## Findings

| source | as written | input that shows it | evidently intended | confidence | as-written member | corrected member |
|---|---|---|---|---|---|---|
| Source/Core/Core/API/Controller.cpp:70-77 | `PerformInputManip` keeps a reference to the override, erases the entry for `NextPoll`, then returns `state` read through the dangling reference | `Set(0, k, 1.0, NextPoll)` followed by one poll of `(0, k)`: the value returned is read from the released map node | copy the state before erasing, so the first poll returns 1.0 | high that the read is undefined behaviour; whether a wrong value is observed depends on the allocator; not executed | Controller.ResolveAsWritten | Controller.ResolveOverride |
