/** Behaviour over several host events: what the tick pipeline does when the
    user approaches, when start() fails, when the bundle changes, and what
    happens to frames once the emulator is stopped. */
module Behaviour {
  import opened EmulatorTypes
  import Proximity
  import Lifecycle
  import Controller
  import Overlay
  import FrameSink

  /** The user stands within `limit` of the object configured by `env`. */
  predicate Near(env: TickEnv, limit: real)
    requires env.position.Some?
  {
    Proximity.WithinRange(Proximity.SqDist(Proximity.Anchor(env.fields), env.position.value), limit)
  }

  /** A failed start still counts as started: start() swallows the error, so
      checkGame marks the component started with no engine. The next tick in
      the same conditions therefore does not retry, and no key reaches
      anything while the user stays. */
  lemma FailedStartCountsAsStarted(s: ComponentState, env: TickEnv, code: string)
    requires Controller.Inv(s) && !s.started
    requires env.fields.bundleUrl != "" && env.position.Some?
    requires Near(env, Proximity.LoadDistance(env.fields))
    requires env.start.Failed?
    ensures var t1 := Controller.CheckStatus(s, env);
      && t1.state.started && t1.state.ci.None?
      && StartWarning(env.start.error) in t1.events
      && var t2 := Controller.CheckStatus(t1.state, env);
      && StartCalls(t2.events) == 0
      && t2.state.started && t2.state.ci.None?
      && Controller.OnKeyDown(t2.state, code) == []
  {
    var t1 := Controller.CheckStatus(s, env);
    Controller.TickPreservesInv(s, env);
    NoStartWhenStarted(t1.state, env);
  }

  /** A tick that begins with the component started never calls start(). */
  lemma NoStartWhenStarted(s: ComponentState, env: TickEnv)
    requires Controller.Inv(s) && s.started
    ensures StartCalls(Controller.CheckStatus(s, env).events) == 0
  {
    if StartCalls(Controller.CheckStatus(s, env).events) > 0 {
      Controller.StartOnlyWhenIdle(s, env);
      assert false;
    }
  }

  /** The interact flag lags one tick: it is computed from `started` as it was
      before the tick's checkGame, so on the tick that starts the emulator the
      user cannot interact yet and no overlay is shown; on the next tick in the
      same place both happen. */
  lemma InteractLagsOneTick(s: ComponentState, env: TickEnv)
    requires Controller.Inv(s) && !s.started
    requires env.fields.bundleUrl != "" && env.position.Some?
    requires Near(env, Proximity.LoadDistance(env.fields))
    requires Near(env, Proximity.InteractDistance(env.fields))
    ensures var t1 := Controller.CheckStatus(s, env);
      && t1.state.started
      && !t1.state.userDistanceInteract
      && t1.state.controlsOverlay.None?
      && var t2 := Controller.CheckStatus(t1.state, env);
      && t2.state.userDistanceInteract
      && t2.state.controlsOverlay == Some(env.overlay)
      && OverlayRegistered(env.overlay) in t2.events
  {
  }

  /** The interact flag also outlives a reload by one tick: on the tick that
      stops the engine for a new bundle the user still counts as interacting
      and the overlay stays up, although no engine is left to take keys. */
  lemma InteractOutlivesReload(s: ComponentState, env: TickEnv, code: string)
    requires Controller.Inv(s) && s.started
    requires env.fields.bundleUrl != "" && s.currentBundle != Some(env.fields.bundleUrl)
    requires env.position.Some?
    requires Near(env, Proximity.LoadDistance(env.fields))
    requires Near(env, Proximity.InteractDistance(env.fields))
    ensures var t := Controller.CheckStatus(s, env);
      && !t.state.started && t.state.ci.None?
      && t.state.userDistanceInteract
      && t.state.controlsOverlay.Some?
      && Controller.OnKeyDown(t.state, code) == []
  {
  }

  /** Reload takes two ticks. Changing the bundle while started and in range
      first stops the engine once, without a start and without clearing the
      texture; the next tick in the same conditions starts the new bundle. */
  lemma ReloadTakesTwoTicks(s: ComponentState, env: TickEnv)
    requires Controller.Inv(s) && s.started
    requires env.fields.bundleUrl != "" && s.currentBundle != Some(env.fields.bundleUrl)
    requires env.position.Some? && Near(env, Proximity.LoadDistance(env.fields))
    ensures var t1 := Controller.CheckStatus(s, env);
      && StopCalls(t1.events) == 1 && StartCalls(t1.events) == 0
      && !t1.state.started && t1.state.ci.None?
      && t1.state.surface == s.surface
      && var t2 := Controller.CheckStatus(t1.state, env);
      && StartCalls(t2.events) == 1 && StopCalls(t2.events) == 0
      && StartCalled(env.fields.bundleUrl) in t2.events
      && t2.state.started
      && t2.state.currentBundle == Some(env.fields.bundleUrl)
  {
    var url := env.fields.bundleUrl;
    var t1 := Controller.CheckStatus(s, env);
    var m1 := Proximity.CheckDistances(s.(checking := true), env.fields, env.position).value;
    assert Lifecycle.WantsReload(m1, url);
    var g1 := Lifecycle.CheckGame(m1, url, env.start).value;
    Lifecycle.OneTransitionPerTick(m1, url, env.start);
    TickCalls(s, env);
    var t2 := Controller.CheckStatus(t1.state, env);
    var m2 := Proximity.CheckDistances(t1.state.(checking := true), env.fields, env.position).value;
    assert Lifecycle.WantsStart(m2, url);
    Lifecycle.OneTransitionPerTick(m2, url, env.start);
    TickCalls(t1.state, env);
  }

  /** The overlay step of a tick never calls start() or stop(): the counts of
      a completed tick are those of its checkGame. */
  lemma TickCalls(s: ComponentState, env: TickEnv)
    requires Controller.Inv(s) && env.position.Some?
    ensures var m := Proximity.CheckDistances(s.(checking := true), env.fields, env.position).value;
      var g := Lifecycle.CheckGame(m, env.fields.bundleUrl, env.start).value;
      var t := Controller.CheckStatus(s, env);
      && StartCalls(t.events) == StartCalls(g.events)
      && StopCalls(t.events) == StopCalls(g.events)
  {
    var m := Proximity.CheckDistances(s.(checking := true), env.fields, env.position).value;
    var g := Lifecycle.CheckGame(m, env.fields.bundleUrl, env.start).value;
    var c := Overlay.CheckControls(g.state, env.overlay);
    assert Controller.CheckStatus(s, env).events == g.events + c.events;
    CallsAppend(g.events, c.events);
    assert StartCalls(c.events) == 0 && StopCalls(c.events) == 0;
  }

  /** Leaving the load range with a changed bundle takes the stop branch: the
      texture is cleared to black, not left showing the last frame. */
  lemma OutOfRangeWithNewBundleStops(s: ComponentState, env: TickEnv)
    requires Controller.Inv(s) && s.started
    requires s.currentBundle != Some(env.fields.bundleUrl)
    requires env.position.Some? && !Near(env, Proximity.LoadDistance(env.fields))
    ensures var t := Controller.CheckStatus(s, env);
      && !t.state.started && t.state.ci.None?
      && t.state.surface == Texture(Black)
      && TextureCleared in t.events
  {
  }

  /** After a tick that stopped the emulator, a frame the worker still emits
      is dropped: the texture keeps what the stop left there. */
  lemma FrameAfterStopDropped(s: ComponentState, env: TickEnv, rgb: seq<byte>)
    requires Controller.Inv(s)
    requires StopCalls(Controller.CheckStatus(s, env).events) > 0
    ensures var t := Controller.CheckStatus(s, env);
      FrameSink.OnFrame(t.state, rgb) == Step(t.state, [])
  {
    var t := Controller.CheckStatus(s, env);
    var m := Proximity.CheckDistances(s.(checking := true), env.fields, env.position).value;
    TickCalls(s, env);
    Lifecycle.OneTransitionPerTick(m, env.fields.bundleUrl, env.start);
  }
}
