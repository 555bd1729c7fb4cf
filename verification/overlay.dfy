/** BaseEmulatorComponent.checkControls: keeps the on-screen controls overlay
    in step with the interact flag. */
module Overlay {
  import opened EmulatorTypes

  /** The overlay is shown exactly when the user may interact. */
  predicate InSync(s: ComponentState) {
    s.controlsOverlay.Some? <==> s.userDistanceInteract
  }

  /** checkControls. `issued` is the handle menus.register returns if called. */
  function CheckControls(s: ComponentState, issued: OverlayId): (r: Step)
    ensures InSync(r.state)
    ensures r.state == s.(controlsOverlay := r.state.controlsOverlay)
    ensures s.controlsOverlay.Some? && !s.userDistanceInteract ==>
      r.events == [OverlayUnregistered(s.controlsOverlay.value)]
    ensures s.controlsOverlay.None? && s.userDistanceInteract ==>
      r.events == [OverlayRegistered(issued)] && r.state.controlsOverlay == Some(issued)
    ensures InSync(s) ==> r == Step(s, [])
  {
    if s.controlsOverlay.Some? && !s.userDistanceInteract then
      Step(s.(controlsOverlay := None), [OverlayUnregistered(s.controlsOverlay.value)])
    else if s.controlsOverlay.None? && s.userDistanceInteract then
      Step(s.(controlsOverlay := Some(issued)), [OverlayRegistered(issued)])
    else
      Step(s, [])
  }

  /** Running checkControls again with the same flag changes nothing and
      asks the host for nothing, whatever handle the host would issue. */
  lemma CheckControlsIdempotent(s: ComponentState, first: OverlayId, second: OverlayId)
    ensures var once := CheckControls(s, first).state;
      CheckControls(once, second) == Step(once, [])
  {
  }
}
