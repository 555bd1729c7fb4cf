/** Shared data model of the emulator component: the per-object record that
    BaseEmulatorComponent and DOSEmulatorComponent keep on `this`, the host
    inputs a tick reads, and the observable effects a step produces. */
module EmulatorTypes {

  /** A value that may be absent (JavaScript `undefined`, `null` or `NaN`). */
  datatype Option<+T> = None | Some(value: T)

  /** The outcome of a step that may throw. `Err` carries the exception; a step
      that throws changes nothing, because every throw point in the core comes
      before the first assignment to `this`. */
  datatype Result<+T> = Ok(value: T) | Err(fault: Fault)

  /** The exceptions that escape a step of the controller. */
  datatype Fault =
    | PositionUnavailable   // plugin.user.getPosition() rejected
    | TextureMissing        // textureCtx used while undefined

  /** One unsigned 8-bit sample, as stored in Uint8Array / Uint8ClampedArray. */
  newtype byte = x: int | 0 <= x < 256

  /** A point in world space. */
  datatype Vec3 = Vec3(x: real, y: real, z: real)

  /** Opaque handle of a running DOSBox worker (the `ci` command interface). */
  datatype EngineHandle = EngineHandle(id: nat)

  /** Opaque handle the host returns when an overlay menu is registered.
      Host-issued handles are always truthy. */
  datatype OverlayId = OverlayId(id: nat)

  /** Why `DOSEmulatorComponent.start` gave up; it logs this and returns. */
  datatype StartError =
    | LibraryMissing              // the global `emulators` is undefined
    | DownloadRejected            // fetch itself rejected
    | DownloadFailed(status: int) // the response was not ok
    | EngineFailed                // emulators.dosboxWorker rejected

  /** What the host environment makes of one call to start(): the network and
      the engine are outside the model, so their combined answer is an input. */
  datatype StartOutcome = Launched(handle: EngineHandle) | Failed(error: StartError)

  /** What the shared texture shows. */
  datatype Screen =
    | Blank                     // freshly created canvas, nothing drawn
    | Black                     // filled black by the stop branch
    | Image(rgba: seq<byte>)    // the last committed emulator frame

  /** The texture together with its 2D context; both are created by onLoad. */
  datatype Surface = NoTexture | Texture(screen: Screen)

  /** The configured fields of the object, as the host reports them on a tick.
      Numbers are the result of `parseFloat` or the raw field value, with
      `None` for `NaN` or an unset field. */
  datatype Fields = Fields(
    bundleUrl: string,
    loadDistance: Option<real>,
    interactDistance: Option<real>,
    x: Option<real>,
    height: Option<real>,
    y: Option<real>)

  /** Everything one tick reads from the host. */
  datatype TickEnv = TickEnv(
    fields: Fields,
    position: Option<Vec3>,   // None: the position lookup threw
    start: StartOutcome,      // the answer to start(), if this tick calls it
    overlay: OverlayId)       // the handle menus.register returns, if called

  /** Observable effects, in the order the source performs them. */
  datatype Event =
    | StartCalled(bundle: string)        // checkGame awaits this.start()
    | EngineRunning(handle: EngineHandle) // ci assigned, frame callback hooked
    | StartWarning(error: StartError)    // start() caught and logged an error
    | TextureCleared                     // fillRect black, texture.update()
    | StopCalled                         // checkGame awaits this.stop()
    | EngineExited(handle: EngineHandle) // ci.exit()
    | FrameCommitted                     // putImageData, texture.update()
    | OverlayRegistered(overlay: OverlayId)
    | OverlayUnregistered(overlay: OverlayId)
    | KeySent(code: int, pressed: bool)  // ci.sendKeyEvent(code, pressed)

  /** The component's fields (`this._started`, `this.currentBundle`, ...). */
  datatype ComponentState = ComponentState(
    started: bool,
    currentBundle: Option<string>,
    userDistanceLoad: bool,
    userDistanceInteract: bool,
    controlsOverlay: Option<OverlayId>,
    checking: bool,
    ci: Option<EngineHandle>,
    surface: Surface)

  /** A new state together with the effects that produced it. */
  datatype Step = Step(state: ComponentState, events: seq<Event>)

  /** The state right after onLoad: texture created, nothing started. */
  function Loaded(): ComponentState {
    ComponentState(false, None, false, false, None, false, None, Texture(Blank))
  }

  /** Number of calls to start() recorded in a trace. */
  function StartCalls(evs: seq<Event>): nat {
    if evs == [] then 0
    else (if evs[0].StartCalled? then 1 else 0) + StartCalls(evs[1..])
  }

  /** Number of calls to stop() recorded in a trace. */
  function StopCalls(evs: seq<Event>): nat {
    if evs == [] then 0
    else (if evs[0].StopCalled? then 1 else 0) + StopCalls(evs[1..])
  }

  lemma {:induction false} CallsAppend(a: seq<Event>, b: seq<Event>)
    ensures StartCalls(a + b) == StartCalls(a) + StartCalls(b)
    ensures StopCalls(a + b) == StopCalls(a) + StopCalls(b)
  {
    if a == [] {
      assert a + b == b;
    } else {
      assert (a + b)[1..] == a[1..] + b;
      CallsAppend(a[1..], b);
    }
  }
}
