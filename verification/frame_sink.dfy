/** BaseEmulatorComponent.onVideoFrame and the DOS frame callback that feeds
    it: frames reach the texture only while the component counts as started. */
module FrameSink {
  import opened EmulatorTypes
  import FrameConvert

  /** onVideoFrame: commit the frame if the texture exists and the component
      is started; otherwise drop it without a trace. */
  function OnVideoFrame(s: ComponentState, rgba: seq<byte>): (r: Step)
    ensures r.state == s.(surface := r.state.surface)
    ensures r.events == [] || r.events == [FrameCommitted]
    ensures r.events == [FrameCommitted] <==> s.surface.Texture? && s.started
    ensures r.events == [] ==> r.state == s
    ensures r.events == [FrameCommitted] ==> r.state.surface == Texture(Image(rgba))
  {
    if s.surface.NoTexture? || !s.started then Step(s, [])
    else Step(s.(surface := Texture(Image(rgba))), [FrameCommitted])
  }

  /** The ci.events().onFrame callback: processVideoFrame converts DOSBox's
      RGB frame, then hands it to onVideoFrame. */
  function OnFrame(s: ComponentState, rgb: seq<byte>): (r: Step)
    ensures !s.started || s.surface.NoTexture? ==> r == Step(s, [])
    ensures s.started && s.surface.Texture? ==>
      && r.events == [FrameCommitted]
      && r.state == s.(surface := Texture(Image(FrameConvert.RgbToRgba(rgb))))
      && |r.state.surface.screen.rgba| == FrameConvert.FrameBytes
      && (forall i, k :: 0 <= i < FrameConvert.FramePixels && 0 <= k < 3 ==>
            FrameConvert.Channel(r.state.surface.screen.rgba, i, k) == FrameConvert.Sample(rgb, 3 * i + k))
      && (forall i :: 0 <= i < FrameConvert.FramePixels ==>
            FrameConvert.Channel(r.state.surface.screen.rgba, i, 3) == 255)
  {
    OnVideoFrame(s, FrameConvert.RgbToRgba(rgb))
  }
}
