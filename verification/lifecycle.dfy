/** BaseEmulatorComponent.checkGame: the start / stop / reload state machine,
    wired to the DOS adapter's start and stop. */
module Lifecycle {
  import opened EmulatorTypes
  import DosAdapter

  /** `bundleURL && this.userDistanceLoad`. */
  predicate CanLoad(s: ComponentState, bundleUrl: string) {
    bundleUrl != "" && s.userDistanceLoad
  }

  /** The first branch: load allowed and not started. */
  predicate WantsStart(s: ComponentState, bundleUrl: string) {
    CanLoad(s, bundleUrl) && !s.started
  }

  /** The second branch: started but load no longer allowed. */
  predicate WantsStop(s: ComponentState, bundleUrl: string) {
    !CanLoad(s, bundleUrl) && s.started
  }

  /** The third branch: started, still allowed, but the bundle changed. */
  predicate WantsReload(s: ComponentState, bundleUrl: string) {
    CanLoad(s, bundleUrl) && s.started && Some(bundleUrl) != s.currentBundle
  }

  /** Only the lifecycle part of the record (started, currentBundle, ci and the
      texture) may differ between `s` and `t`. */
  predicate SameControls(s: ComponentState, t: ComponentState) {
    && t.userDistanceLoad == s.userDistanceLoad
    && t.userDistanceInteract == s.userDistanceInteract
    && t.controlsOverlay == s.controlsOverlay
    && t.checking == s.checking
  }

  /** checkGame. `outcome` is what start() would meet if this tick calls it. */
  function CheckGame(s: ComponentState, bundleUrl: string, outcome: StartOutcome): (r: Result<Step>)
    // The stop branch is the only one that touches the texture, and it throws
    // when there is none.
    ensures r.Err? <==> WantsStop(s, bundleUrl) && s.surface.NoTexture?
    ensures r.Err? ==> r.fault == TextureMissing
    ensures r.Ok? ==> SameControls(s, r.value.state)
    // Start: the bundle is recorded first, and afterwards the component counts
    // as started whether or not start() managed to launch the engine.
    ensures WantsStart(s, bundleUrl) ==>
      && r.Ok?
      && r.value.state.started
      && r.value.state.currentBundle == Some(bundleUrl)
      && r.value.state.surface == s.surface
      && |r.value.events| > 0 && r.value.events[0] == StartCalled(bundleUrl)
      && (outcome.Launched? ==> r.value.state.ci == Some(outcome.handle))
      && (outcome.Failed? ==> r.value.state.ci == s.ci)
    // Stop: the texture is cleared to black and committed, then stop() runs.
    ensures WantsStop(s, bundleUrl) && r.Ok? ==>
      && !r.value.state.started
      && r.value.state.ci.None?
      && r.value.state.surface == Texture(Black)
      && r.value.state.currentBundle == s.currentBundle
      && |r.value.events| >= 2 && r.value.events[..2] == [TextureCleared, StopCalled]
    // Reload: stop() runs, but the last frame stays on the texture.
    ensures WantsReload(s, bundleUrl) ==>
      && r.Ok?
      && !r.value.state.started
      && r.value.state.ci.None?
      && r.value.state.surface == s.surface
      && r.value.state.currentBundle == s.currentBundle
      && |r.value.events| > 0 && r.value.events[0] == StopCalled
      && TextureCleared !in r.value.events
    // Otherwise nothing happens.
    ensures !WantsStart(s, bundleUrl) && !WantsStop(s, bundleUrl) && !WantsReload(s, bundleUrl) ==>
      r == Ok(Step(s, []))
  {
    var canLoad := CanLoad(s, bundleUrl);
    if canLoad && !s.started then
      var a := DosAdapter.Start(s.ci, outcome);
      Ok(Step(s.(currentBundle := Some(bundleUrl), ci := a.ci, started := true),
              [StartCalled(bundleUrl)] + a.events))
    else if !canLoad && s.started then
      if s.surface.NoTexture? then Err(TextureMissing)
      else
        var a := DosAdapter.Stop(s.ci);
        Ok(Step(s.(surface := Texture(Black), started := false, ci := a.ci),
                [TextureCleared, StopCalled] + a.events))
    else if s.started && Some(bundleUrl) != s.currentBundle then
      var a := DosAdapter.Stop(s.ci);
      Ok(Step(s.(started := false, ci := a.ci), [StopCalled] + a.events))
    else
      Ok(Step(s, []))
  }

  /** The if / else-if chain fires at most one branch: a tick calls start() or
      stop() at most once, never both, and it calls start() exactly when the
      first branch applies and stop() exactly when the second or third does. */
  lemma OneTransitionPerTick(s: ComponentState, bundleUrl: string, outcome: StartOutcome)
    requires CheckGame(s, bundleUrl, outcome).Ok?
    ensures var evs := CheckGame(s, bundleUrl, outcome).value.events;
      && StartCalls(evs) + StopCalls(evs) <= 1
      && (StartCalls(evs) == 1 <==> WantsStart(s, bundleUrl))
      && (StopCalls(evs) == 1 <==> WantsStop(s, bundleUrl) || WantsReload(s, bundleUrl))
  {
    var evs := CheckGame(s, bundleUrl, outcome).value.events;
    if WantsStart(s, bundleUrl) {
      var a := DosAdapter.Start(s.ci, outcome);
      assert evs == [StartCalled(bundleUrl)] + a.events;
      CallsAppend([StartCalled(bundleUrl)], a.events);
      assert StartCalls(a.events) == 0 && StopCalls(a.events) == 0;
    } else if WantsStop(s, bundleUrl) {
      var a := DosAdapter.Stop(s.ci);
      assert evs == [TextureCleared, StopCalled] + a.events;
      CallsAppend([TextureCleared, StopCalled], a.events);
      assert StartCalls(a.events) == 0 && StopCalls(a.events) == 0;
      assert [TextureCleared, StopCalled][1..] == [StopCalled];
    } else if WantsReload(s, bundleUrl) {
      var a := DosAdapter.Stop(s.ci);
      assert evs == [StopCalled] + a.events;
      CallsAppend([StopCalled], a.events);
      assert StartCalls(a.events) == 0 && StopCalls(a.events) == 0;
    }
  }
}
