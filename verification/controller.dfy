/** The component as a whole: the guarded tick (checkStatus), the key
    handlers, and the invariants every host event preserves. */
module Controller {
  import opened EmulatorTypes
  import Proximity
  import Lifecycle
  import Overlay
  import FrameSink
  import DosAdapter

  /** How a call to checkStatus ended. */
  datatype Ending =
    | Skipped          // another tick was still in flight
    | Completed        // all three steps ran
    | Aborted(fault: Fault) // a step threw; the later steps did not run

  datatype TickResult = TickResult(state: ComponentState, events: seq<Event>, ending: Ending)

  /** checkStatus: skip if a tick is in flight; otherwise run checkDistances,
      checkGame and checkControls in that order, stopping at the first throw,
      and in every case clear `checking` again (the `finally`). */
  function CheckStatus(s: ComponentState, env: TickEnv): (r: TickResult)
    ensures s.checking <==> r.ending == Skipped
    ensures s.checking ==> r.state == s && r.events == []
    ensures !s.checking ==> !r.state.checking
    // A failed position lookup leaves every flag as it was.
    ensures !s.checking && env.position.None? ==>
      r == TickResult(s, [], Aborted(PositionUnavailable))
    // A completed tick leaves the overlay in step with the new interact flag.
    ensures r.ending == Completed ==> Overlay.InSync(r.state)
  {
    if s.checking then TickResult(s, [], Skipped)
    else
      var busy := s.(checking := true);
      match Proximity.CheckDistances(busy, env.fields, env.position)
      case Err(f) => TickResult(s, [], Aborted(f))
      case Ok(measured) =>
        match Lifecycle.CheckGame(measured, env.fields.bundleUrl, env.start)
        case Err(f) => TickResult(measured.(checking := false), [], Aborted(f))
        case Ok(game) =>
          var controls := Overlay.CheckControls(game.state, env.overlay);
          TickResult(controls.state.(checking := false), game.events + controls.events, Completed)
  }

  /** onKeyDown of the DOS component. */
  function OnKeyDown(s: ComponentState, code: string): (r: seq<Event>)
    ensures s.ci.None? || !s.userDistanceInteract || DosAdapter.DosKeyMap(code).None? ==> r == []
    ensures s.ci.Some? && s.userDistanceInteract && DosAdapter.DosKeyMap(code).Some? ==>
      DosAdapter.SentCodes(r) == DosAdapter.DosKeyMap(code).value
    ensures forall e :: e in r ==> e.KeySent? && e.pressed
  {
    DosAdapter.RouteKey(s.ci, s.userDistanceInteract, code, true)
  }

  /** onKeyUp of the DOS component. */
  function OnKeyUp(s: ComponentState, code: string): (r: seq<Event>)
    ensures s.ci.None? || !s.userDistanceInteract || DosAdapter.DosKeyMap(code).None? ==> r == []
    ensures s.ci.Some? && s.userDistanceInteract && DosAdapter.DosKeyMap(code).Some? ==>
      DosAdapter.SentCodes(r) == DosAdapter.DosKeyMap(code).value
    ensures forall e :: e in r ==> e.KeySent? && !e.pressed
  {
    DosAdapter.RouteKey(s.ci, s.userDistanceInteract, code, false)
  }

  /** What the component holds between host events once onLoad has finished. */
  predicate Inv(s: ComponentState) {
    && !s.checking
    && s.surface.Texture?
    // An engine is only ever held while the component counts as started ...
    && (s.ci.Some? ==> s.started)
    // ... and a started component knows which non-empty bundle it started.
    && (s.started ==> s.currentBundle.Some? && s.currentBundle.value != "")
    && Overlay.InSync(s)
  }

  lemma LoadedSatisfiesInv()
    ensures Inv(Loaded())
  {
  }

  /** Something the host does to the component. */
  datatype HostEvent =
    | Tick(env: TickEnv)
    | Frame(rgb: seq<byte>)
    | KeyDown(code: string)
    | KeyUp(code: string)

  function Dispatch(s: ComponentState, h: HostEvent): Step {
    match h
    case Tick(env) => var t := CheckStatus(s, env); Step(t.state, t.events)
    case Frame(rgb) => FrameSink.OnFrame(s, rgb)
    case KeyDown(code) => Step(s, OnKeyDown(s, code))
    case KeyUp(code) => Step(s, OnKeyUp(s, code))
  }

  /** The host events applied in order, with their effects concatenated. */
  function Run(s: ComponentState, hs: seq<HostEvent>): Step
    decreases |hs|
  {
    if hs == [] then Step(s, [])
    else
      var first := Dispatch(s, hs[0]);
      var rest := Run(first.state, hs[1..]);
      Step(rest.state, first.events + rest.events)
  }

  /** A tick from a state satisfying the invariant completes unless the
      position lookup fails, and keeps the invariant either way. */
  lemma TickPreservesInv(s: ComponentState, env: TickEnv)
    requires Inv(s)
    ensures Inv(CheckStatus(s, env).state)
    ensures env.position.Some? ==> CheckStatus(s, env).ending == Completed
  {
  }

  lemma DispatchPreservesInv(s: ComponentState, h: HostEvent)
    requires Inv(s)
    ensures Inv(Dispatch(s, h).state)
  {
    if h.Tick? {
      TickPreservesInv(s, h.env);
    }
  }

  /** No sequence of ticks, frames and key presses breaks the invariant. */
  lemma {:induction false} RunPreservesInv(s: ComponentState, hs: seq<HostEvent>)
    requires Inv(s)
    ensures Inv(Run(s, hs).state)
    decreases |hs|
  {
    if hs != [] {
      DispatchPreservesInv(s, hs[0]);
      RunPreservesInv(Dispatch(s, hs[0]).state, hs[1..]);
    }
  }

  /** Never two engines at once: a tick calls start() only when the component
      holds no engine and does not count as started, and then calls it once. */
  lemma StartOnlyWhenIdle(s: ComponentState, env: TickEnv)
    requires Inv(s)
    requires StartCalls(CheckStatus(s, env).events) > 0
    ensures s.ci.None? && !s.started
    ensures StartCalls(CheckStatus(s, env).events) == 1
    ensures CheckStatus(s, env).state.started
  {
    var t := CheckStatus(s, env);
    var measured := Proximity.CheckDistances(s.(checking := true), env.fields, env.position).value;
    var game := Lifecycle.CheckGame(measured, env.fields.bundleUrl, env.start).value;
    var controls := Overlay.CheckControls(game.state, env.overlay);
    assert t.events == game.events + controls.events;
    CallsAppend(game.events, controls.events);
    assert StartCalls(controls.events) == 0;
    Lifecycle.OneTransitionPerTick(measured, env.fields.bundleUrl, env.start);
  }
}
