/** Worked examples: an object at the origin with bundle "x.js", load distance
    10 and interact distance 3, and a user walking around it. */
module Scenarios {
  import opened EmulatorTypes
  import Controller

  function At(url: string, x: real, outcome: StartOutcome): TickEnv {
    TickEnv(Fields(url, Some(10.0), Some(3.0), None, None, None),
            Some(Vec3(x, 0.0, 0.0)), outcome, OverlayId(7))
  }

  /** A: at distance 5 the emulator starts, but the user cannot interact. */
  lemma ScenarioApproach()
    ensures var t := Controller.CheckStatus(Loaded(), At("x.js", 5.0, Launched(EngineHandle(1))));
      && t.ending == Controller.Completed
      && t.state.started && t.state.ci == Some(EngineHandle(1))
      && t.events == [StartCalled("x.js"), EngineRunning(EngineHandle(1))]
      && !t.state.userDistanceInteract
  {
  }

  /** B: moving to distance 2 enables interaction and registers the overlay
      once; staying there registers nothing more. */
  lemma ScenarioStepCloser()
    ensures var a := Controller.CheckStatus(Loaded(), At("x.js", 5.0, Launched(EngineHandle(1)))).state;
      var b := Controller.CheckStatus(a, At("x.js", 2.0, Launched(EngineHandle(1))));
      var c := Controller.CheckStatus(b.state, At("x.js", 2.0, Launched(EngineHandle(1))));
      && b.state.userDistanceInteract
      && b.events == [OverlayRegistered(OverlayId(7))]
      && c.events == []
  {
  }

  /** C: walking out to distance 15 clears the texture and stops the engine. */
  lemma ScenarioWalkAway()
    ensures var a := Controller.CheckStatus(Loaded(), At("x.js", 5.0, Launched(EngineHandle(1)))).state;
      var b := Controller.CheckStatus(a, At("x.js", 15.0, Launched(EngineHandle(1))));
      && b.events == [TextureCleared, StopCalled, EngineExited(EngineHandle(1))]
      && !b.state.started && b.state.ci.None?
      && b.state.surface == Texture(Black)
  {
  }

  /** D: changing the bundle from "a" to "b" at distance 5 stops on one tick
      and starts "b" on the next. */
  lemma ScenarioChangeBundle()
    ensures var a := Controller.CheckStatus(Loaded(), At("a", 5.0, Launched(EngineHandle(1)))).state;
      var b := Controller.CheckStatus(a, At("b", 5.0, Launched(EngineHandle(2))));
      var c := Controller.CheckStatus(b.state, At("b", 5.0, Launched(EngineHandle(2))));
      && b.events == [StopCalled, EngineExited(EngineHandle(1))]
      && c.events == [StartCalled("b"), EngineRunning(EngineHandle(2))]
  {
  }

  /** E: an unmapped key reaches the engine in no state. */
  lemma ScenarioUnmappedKey(s: ComponentState)
    ensures Controller.OnKeyDown(s, "KeyZ") == []
    ensures Controller.OnKeyUp(s, "KeyZ") == []
  {
  }
}
