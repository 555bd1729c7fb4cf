/** The deterministic parts of DOSEmulatorComponent: the error-swallowing
    start, the idempotent stop, and the key router over DOSKeyMap. */
module DosAdapter {
  import opened EmulatorTypes

  /** The adapter's `ci` field after an operation, with the effects. */
  datatype AdapterStep = AdapterStep(ci: Option<EngineHandle>, events: seq<Event>)

  /** start(): on success `ci` holds the new worker; every error is caught and
      logged, never rethrown, and leaves `ci` as it was. */
  function Start(ci: Option<EngineHandle>, outcome: StartOutcome): (r: AdapterStep)
    ensures outcome.Launched? ==> r.ci == Some(outcome.handle) && r.events == [EngineRunning(outcome.handle)]
    ensures outcome.Failed? ==> r.ci == ci && r.events == [StartWarning(outcome.error)]
  {
    match outcome
    case Launched(h) => AdapterStep(Some(h), [EngineRunning(h)])
    case Failed(e) => AdapterStep(ci, [StartWarning(e)])
  }

  /** stop(): exits the worker if there is one, then forgets it. */
  function Stop(ci: Option<EngineHandle>): (r: AdapterStep)
    ensures r.ci == None
    ensures ci.None? ==> r.events == []
    ensures ci.Some? ==> r.events == [EngineExited(ci.value)]
  {
    match ci
    case None => AdapterStep(None, [])
    case Some(h) => AdapterStep(None, [EngineExited(h)])
  }

  /** Stopping twice is stopping once: the second call finds no worker. */
  lemma StopIdempotent(ci: Option<EngineHandle>)
    ensures Stop(Stop(ci).ci) == AdapterStep(Stop(ci).ci, [])
  {
  }

  /** The six host keys DOSKeyMap knows. */
  const MappedKeys: set<string> := {"KeyI", "KeyJ", "KeyK", "KeyL", "KeyO", "KeyP"}

  /** DOSKeyMap: a host key code to the js-dos key codes it presses. Exactly
      the six keys above are mapped, each to at least one code. */
  function DosKeyMap(code: string): (r: Option<seq<int>>)
    ensures r.Some? <==> code in MappedKeys
    ensures r.Some? ==> 1 <= |r.value| <= 3
  {
    if code == "KeyI" then Some([265, 87])           // forward: up, w
    else if code == "KeyJ" then Some([263])          // left
    else if code == "KeyK" then Some([264, 83])      // backwards: down, s
    else if code == "KeyL" then Some([262])          // right
    else if code == "KeyO" then Some([257, 341, 89]) // select: enter, left control, y
    else if code == "KeyP" then Some([256])          // back: escape
    else None
  }

  /** No two mapped keys press a common js-dos code, so releasing one key never
      releases a code another held key pressed. */
  lemma KeyCodesDisjoint(a: string, b: string)
    requires a in MappedKeys && b in MappedKeys && a != b
    ensures forall c :: c in DosKeyMap(a).value ==> c !in DosKeyMap(b).value
  {
  }

  /** The `for (let c of codes) ci.sendKeyEvent(c, pressed)` loop. */
  function FanOut(codes: seq<int>, pressed: bool): (r: seq<Event>)
    ensures |r| == |codes|
    ensures forall i :: 0 <= i < |r| ==> r[i] == KeySent(codes[i], pressed)
  {
    if codes == [] then []
    else [KeySent(codes[0], pressed)] + FanOut(codes[1..], pressed)
  }

  /** The key codes a trace sends, in order. */
  function SentCodes(evs: seq<Event>): seq<int> {
    if evs == [] then []
    else (if evs[0].KeySent? then [evs[0].code] else []) + SentCodes(evs[1..])
  }

  lemma {:induction false} FanOutSendsCodes(codes: seq<int>, pressed: bool)
    ensures SentCodes(FanOut(codes, pressed)) == codes
  {
    if codes != [] {
      var r := FanOut(codes, pressed);
      assert r[1..] == FanOut(codes[1..], pressed);
      FanOutSendsCodes(codes[1..], pressed);
    }
  }

  /** onKeyDown / onKeyUp: nothing unless a worker exists and the user is in
      interact range; nothing for an unmapped key; otherwise every mapped code,
      in table order, with the given pressed flag. */
  function RouteKey(ci: Option<EngineHandle>, interact: bool, code: string, pressed: bool): (r: seq<Event>)
    ensures ci.None? || !interact || DosKeyMap(code).None? ==> r == []
    ensures ci.Some? && interact && DosKeyMap(code).Some? ==>
      && SentCodes(r) == DosKeyMap(code).value
      && |r| == |DosKeyMap(code).value|
      && forall i :: 0 <= i < |r| ==> r[i] == KeySent(DosKeyMap(code).value[i], pressed)
    ensures forall e :: e in r ==> e.KeySent? && e.pressed == pressed
  {
    if ci.None? || !interact then []
    else match DosKeyMap(code)
      case None => []
      case Some(codes) =>
        FanOutSendsCodes(codes, pressed);
        FanOut(codes, pressed)
  }

  /** Key down and key up for the same key send the same codes in the same
      order, pressed and released respectively. */
  lemma DownUpSymmetric(ci: Option<EngineHandle>, interact: bool, code: string)
    ensures var down, up := RouteKey(ci, interact, code, true), RouteKey(ci, interact, code, false);
      && |down| == |up|
      && forall i :: 0 <= i < |down| ==>
           down[i] == KeySent(down[i].code, true) && up[i] == KeySent(down[i].code, false)
  {
  }
}
