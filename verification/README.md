# Emulator proximity controller: a Dafny model

This project models the core of a Spaces plugin that shows a DOS emulator
on an object in a shared 3D world. Every 500 ms the component runs a tick
(`checkStatus`). The tick does three things, in order:

1. It measures the user's distance to the object and sets two flags.
   `userDistanceLoad` says the user is close enough to load the emulator.
   `userDistanceInteract` says the user is close enough to interact.
2. It runs the lifecycle state machine (`checkGame`). This starts the DOS
   emulator, stops it and clears the texture to black, or stops it for a
   reload when the configured bundle URL changes.
3. It syncs the on-screen controls overlay with the interact flag
   (`checkControls`).

Frames from the emulator are converted from RGB to RGBA and committed to
the texture only while the component counts as started. Key presses are
routed through a fixed key table to the emulator, and only while an engine
exists and the user is in interact range.

The component is one immutable record, `ComponentState`. Every step is a
pure function from a state and the host's inputs to a new state plus a list
of observable `Event`s. The events are: start/stop calls, engine launch and
exit, clearing the texture, frame commits, overlay register/unregister,
and key events. These host answers are inputs:

- the user's position, or its absence when the lookup throws;
- the field values;
- the outcome of start();
- the overlay handle the host issues.

Modules:

| file | module | models |
|---|---|---|
| emulator_types.dfy | EmulatorTypes | the component record, host inputs, events |
| proximity.dfy | Proximity | `checkDistances`, threshold defaults, the distance test |
| lifecycle.dfy | Lifecycle | `checkGame` |
| overlay.dfy | Overlay | `checkControls` |
| frame_sink.dfy | FrameSink | `onVideoFrame` and the DOS frame callback |
| frame_convert.dfy | FrameConvert | `processVideoFrame`'s RGB to RGBA loop |
| dos_adapter.dfy | DosAdapter | DOS `start`, `stop`, `DOSKeyMap`, key fan-out |
| controller.dfy | Controller | `checkStatus`, key handlers, the invariant over any run |
| behaviour.dfy | Behaviour | multi-tick properties: failed start, interact lag, reload |
| scenarios.dfy | Scenarios | worked examples with concrete positions |

The source's `Math.sqrt(d2) < limit` is stated as `limit > 0 && d2 < limit * limit`.
`Proximity.WithinRangeIsDistanceBelow` proves that this agrees with
comparing the true Euclidean distance. `CheckDistances` states its flags
in terms of that distance.

## Behaviour that may surprise

Each point below is what the code does, and the model states it that way:

- A failed start counts as started. `DOSEmulatorComponent.start` catches
  every error, so `checkGame` sets `_started = true` anyway and `ci` stays
  null. The component does not retry until the user leaves load range or
  the bundle changes.
- A reload does not clear the texture. The last frame stays on screen
  between the stop tick and the start tick.
- The interact flag uses `_started` as it was before the tick's
  `checkGame`. So interaction and the overlay arrive one tick after the
  start. They also outlive a reload stop by one tick.
- Keys are gated on `ci` being set and on the interact flag, not on
  "running". After a failed start, `ci` is null, so no key reaches anything.
- `load-distance`/`interact-distance` use `parseFloat(...) || default`. A
  configured 0 therefore becomes the default, and a negative value is kept
  (and so is never in range).
- `onUnload` neither stops the emulator nor unregisters the overlay.

## Model

| member | source | states |
|---|---|---|
| Proximity.OrDefault | src/BaseEmulatorComponent.js:89-90 | a parsed threshold is kept when truthy; NaN or 0 gives the default; the result is never 0 |
| Proximity.ZeroMeansDefault | src/BaseEmulatorComponent.js:89-90 | a configured or unset 0/NaN load distance becomes 10, interact distance becomes 3 |
| Proximity.WithinRangeIsDistanceBelow | src/BaseEmulatorComponent.js:97-98 | for the non-negative root d of the squared distance, the squared test holds iff d < limit |
| Proximity.CheckDistances | src/BaseEmulatorComponent.js:86-101 | load flag iff Euclidean distance to (x, height, y) is below the load threshold; interact flag iff below the interact threshold and started on entry; a failed position lookup throws and writes nothing; nothing else changes |
| Lifecycle.CheckGame | src/BaseEmulatorComponent.js:104-140 | start only when bundle non-empty, in load range and not started, recording the bundle and leaving started true even if start fails; stop clears the texture to black before stop(), ends not started with no engine; reload stops without clearing; otherwise no change; stop branch throws without a texture |
| Lifecycle.OneTransitionPerTick | src/BaseEmulatorComponent.js:111-138 | a tick calls start() or stop() at most once and never both; start() iff the first branch applies, stop() iff the second or third does |
| Overlay.CheckControls | src/BaseEmulatorComponent.js:160-184 | afterwards the overlay is held iff interact is true; registers only when none is held, unregisters the held id only when interact is false; a synced state is left untouched |
| Overlay.CheckControlsIdempotent | src/BaseEmulatorComponent.js:163-182 | a second checkControls with the same flag sends nothing and changes nothing |
| FrameSink.OnVideoFrame | src/BaseEmulatorComponent.js:147-157 | a frame is committed iff the texture exists and the component is started; a dropped frame leaves the state unchanged; only the texture can change |
| FrameSink.OnFrame | src/DOSEmulatorComponent.js:78-91 | a DOSBox frame reaches the texture only while started, and then the texture holds exactly the converted frame: 320x200x4 bytes, channels 0..2 of pixel i are input bytes 3i..3i+2 (0 past the input's end), every pixel opaque; otherwise nothing changes |
| FrameConvert.RgbToRgba | src/DOSEmulatorComponent.js:81-87 | the converted frame has 256000 bytes; channels 0..2 of pixel i are input bytes 3i..3i+2, 0 past the input's end; channel 3 is 255 |
| FrameConvert.ProcessVideoFrame | src/DOSEmulatorComponent.js:78-87 | the loop yields 320*200*4 bytes: channels 0..2 of pixel i are input bytes 3i..3i+2 (0 past the input's end), channel 3 is 255 |
| DosAdapter.Start | src/DOSEmulatorComponent.js:29-66 | start never throws; success stores the new engine, any error is logged and leaves ci as it was |
| DosAdapter.Stop | src/DOSEmulatorComponent.js:69-75 | stop leaves ci null, exits the held engine if any, and is safe with none |
| DosAdapter.StopIdempotent | src/DOSEmulatorComponent.js:72-73 | stopping twice equals stopping once; the second call exits nothing |
| DosAdapter.DosKeyMap | src/DOSEmulatorComponent.js:134-141 | a key is mapped iff it is one of KeyI, KeyJ, KeyK, KeyL, KeyO, KeyP; each mapped key presses one to three js-dos codes |
| DosAdapter.KeyCodesDisjoint | src/DOSEmulatorComponent.js:134-141 | no js-dos code is pressed by two different mapped keys |
| DosAdapter.FanOut | src/DOSEmulatorComponent.js:108-109 | one key event per mapped code, in table order, all with the given pressed flag |
| DosAdapter.FanOutSendsCodes | src/DOSEmulatorComponent.js:126-127 | the codes sent by the fan-out are exactly the table entry, in order |
| DosAdapter.RouteKey | src/DOSEmulatorComponent.js:96-129 | nothing is sent without an engine, out of interact range, or for an unmapped key; otherwise exactly the mapped codes in order |
| DosAdapter.DownUpSymmetric | src/DOSEmulatorComponent.js:114-129 | key up sends the same codes as key down, in the same order and number, released instead of pressed |
| Controller.CheckStatus | src/BaseEmulatorComponent.js:63-83 | skipped with no effect iff a tick is in flight; otherwise `checking` is clear afterwards even when a step throws; a failed position lookup changes nothing; a completed tick leaves the overlay synced |
| Controller.OnKeyDown | src/DOSEmulatorComponent.js:96-111 | no events without ci, out of interact range or for an unmapped key; otherwise the mapped codes, all pressed |
| Controller.OnKeyUp | src/DOSEmulatorComponent.js:114-129 | no events without ci, out of interact range or for an unmapped key; otherwise the mapped codes, all released |
| Controller.LoadedSatisfiesInv | src/BaseEmulatorComponent.js:16-48 | the state after onLoad satisfies the invariant |
| Controller.TickPreservesInv | src/BaseEmulatorComponent.js:63-83 | a tick keeps: engine held only while started, started only with a non-empty recorded bundle, overlay synced, texture present; it completes whenever the position is known |
| Controller.DispatchPreservesInv | src/BaseEmulatorComponent.js:63-157 | ticks, frames and key events each keep the invariant |
| Controller.RunPreservesInv | src/BaseEmulatorComponent.js:63-184 | any sequence of ticks, frames and key events keeps the invariant |
| Controller.StartOnlyWhenIdle | src/BaseEmulatorComponent.js:111-117 | a tick calls start() only when no engine is held and not started, exactly once, and ends started |
| Behaviour.FailedStartCountsAsStarted | src/BaseEmulatorComponent.js:111-117 | after a failed start the component is started with no engine and the warning is logged; the next tick in the same place does not retry, stays started without an engine, and key presses send nothing |
| Behaviour.NoStartWhenStarted | src/BaseEmulatorComponent.js:111 | a tick that begins started never calls start() |
| Behaviour.InteractLagsOneTick | src/BaseEmulatorComponent.js:99 | on the starting tick interact is false and no overlay is shown even in interact range; the next tick sets interact and registers the overlay |
| Behaviour.InteractOutlivesReload | src/BaseEmulatorComponent.js:131-137 | on the tick that stops for a new bundle in interact range, interact stays true and the overlay stays up while no engine is left, so keys send nothing |
| Behaviour.ReloadTakesTwoTicks | src/BaseEmulatorComponent.js:131-137 | a changed bundle in range: one stop and no start, texture unchanged; next tick: one start with the new bundle, recorded as current |
| Behaviour.TickCalls | src/BaseEmulatorComponent.js:72-75 | the overlay step adds no start or stop calls to a tick |
| Behaviour.OutOfRangeWithNewBundleStops | src/BaseEmulatorComponent.js:119-129 | out of range with a changed bundle takes the stop branch: texture black, not started, no engine |
| Behaviour.FrameAfterStopDropped | src/BaseEmulatorComponent.js:150-151 | after a tick that called stop(), a late frame commits nothing and changes nothing |
| Scenarios.ScenarioApproach | src/BaseEmulatorComponent.js:104-117 | distance 5 of load 10 / interact 3: start("x.js") and launch, interact false |
| Scenarios.ScenarioStepCloser | src/BaseEmulatorComponent.js:160-182 | moving to distance 2 registers the overlay once; staying there sends nothing |
| Scenarios.ScenarioWalkAway | src/BaseEmulatorComponent.js:119-129 | moving to distance 15 clears the texture, calls stop and exits the engine |
| Scenarios.ScenarioChangeBundle | src/BaseEmulatorComponent.js:131-137 | bundle "a" to "b" at distance 5: stop on one tick, start("b") on the next |
| Scenarios.ScenarioUnmappedKey | src/DOSEmulatorComponent.js:103-105 | an unmapped key sends nothing in any state |

## Left out

- onLoad/onUnload plumbing: key-hook registration, texture creation, the
  material colour refresh with `setTimeout`, and the `setInterval` timer.
  This is host I/O. The model starts from `Loaded()`, the state onLoad
  leaves behind.
- The network and engine parts of start: `fetch`, `emulators.dosboxWorker`,
  the `pathPrefix` set-up and the `self.onmessage` workaround. Their combined
  answer is the `StartOutcome` input. An exception thrown after `ci` is
  assigned (while hooking the frame callback) is not modelled. The model
  treats such a start as a success.
- Asynchronous interleaving inside a tick. A tick is atomic behind the
  `checking` flag, so the model cannot express a frame arriving between
  `_started = false` and `stop()`, or during `await this.start()`. The events
  record the order of the calls.
- Exceptions from `menus.register`/`menus.unregister` and from
  `texture.update`. The host is assumed to answer, and overlay handles are
  truthy.
- The overlay's HTML/SVG payload and `convertPanelHTML` (src/Utilities.js):
  string templating. The model only needs the returned handle.
- src/GameboyEmulatorComponent.js, src/DOMShim.js and src/index.js. These are a
  separate component that does not use this controller, environment
  patching, and component registration.
- Floating point: `parseFloat`, `Math.sqrt`, `Infinity` and rounding. The model
  uses exact reals, with `None` for NaN or an unset field.
- Console logging. A logged start error appears as a `StartWarning` event;
  other debug lines are not modelled.
- Key codes that name a member of `Object.prototype` (`toString`,
  `constructor`, `__proto__` and the like). `DOSKeyMap[e.code]` finds the
  inherited member, which is truthy but not iterable, so the `for...of`
  throws a TypeError. The model treats every unlisted code as unmapped. It
  matches the source in that no key event is sent; only the thrown error is
  lost. Browser `KeyboardEvent.code` values never take these names.
