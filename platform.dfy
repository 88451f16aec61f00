/**
 * The platform facade: `platformInit` fills a `Platform`'s capability table
 * from the backend of the target it was compiled for and runs the backend's
 * `init`; `platformShutdown` runs the backend's `shutdown` and clears the
 * table, the window and the state.
 *
 * A function pointer is a `Slot`: `None` for a null pointer, otherwise the
 * backend function it names. What a backend's functions do is outside the
 * model, except for what the Linux backend shows: which slots its factory
 * fills, and that `init` stores a fresh state object. Calls into the backend
 * are recorded in the ghost field `calls`.
 */
module PlatformFacade {
  import opened Wrappers

  /** The target the preprocessor selected; `Unrecognised` when none of the three macros is defined. */
  datatype Target = Windows | Mac | Linux | Unrecognised

  /** A backend function, by name. */
  datatype Fn = Fn(name: string)

  /** A function pointer, null or naming a backend function. */
  type Slot = Option<Fn>

  /** `PlatformAPI`: one nullable slot per capability. It has no `getAxisValue` slot. */
  datatype PlatformApi = PlatformApi(
    init: Slot, shutdown: Slot,
    getTimeSeconds: Slot, sleepMs: Slot,
    windowCreate: Slot, windowDestroy: Slot,
    isKeyPressed: Slot, pumpEvents: Slot,
    log: Slot)

  /** `PlatformAPI{}`: every slot null. */
  const EmptyApi: PlatformApi := PlatformApi(None, None, None, None, None, None, None, None, None)

  /** The table `platformCreate_linux` installs: every slot but `log`. */
  const LinuxApi: PlatformApi := PlatformApi(
    Some(Fn("linux_init")), Some(Fn("linux_shutdown")),
    Some(Fn("linux_getTimeSeconds")), Some(Fn("linux_sleepMs")),
    Some(Fn("linux_windowCreate")), Some(Fn("linux_windowDestroy")),
    Some(Fn("linux_isKeyPressed")), Some(Fn("linux_pumpEvents")),
    None)

  /**
   * What `platformInit` needs of the selected backend: the table its factory
   * installs, and the state object its `init` stores. The boolean results of
   * both are ignored by `platformInit`, so they are not modelled.
   */
  datatype Backend = Backend(table: PlatformApi, initState: object?)

  class PlatformWindow {
    var shouldClose: bool
    var width: int
    var height: int
    var handle: object?

    /** `new PlatformWindow{}` with the size the creator assigns. */
    constructor (width: int, height: int)
      ensures !shouldClose && this.width == width && this.height == height && handle == null
    {
      shouldClose, this.width, this.height, handle := false, width, height, null;
    }
  }

  /** The Linux backend's empty `State` struct, allocated by `linux_init`. */
  class LinuxState {
    constructor () {}
  }

  class Platform {
    var api: PlatformApi
    var window: PlatformWindow?
    var state: object?
    /** The backend functions invoked on this platform, in order. */
    ghost var calls: seq<Fn>

    /** `Platform{}`: an empty table, no window, no state. */
    constructor ()
      ensures api == EmptyApi && window == null && state == null && calls == []
    {
      api, window, state := EmptyApi, null, null;
      calls := [];
    }
  }

  /** Whether `platformInit` reports success: a target is recognised and its backend left `init` non-null. */
  predicate InitSucceeds(target: Target, backend: Backend) {
    target != Unrecognised && backend.table.init.Some?
  }

  /**
   * `platformInit(out)`. With no recognised target it returns false at once.
   * Otherwise the backend's factory installs its table; then `init`, when
   * non-null, is invoked once and the result is true whatever `init`
   * returned; a null `init` gives false.
   */
  method PlatformInit(out: Platform, target: Target, backend: Backend) returns (ok: bool)
    modifies out
    ensures ok == InitSucceeds(target, backend)
    ensures target == Unrecognised ==>
      out.api == old(out.api) && out.state == old(out.state) && out.calls == old(out.calls)
    ensures target != Unrecognised ==> out.api == backend.table
    ensures ok ==> out.calls == old(out.calls) + [backend.table.init.value] && out.state == backend.initState
    ensures !ok ==> out.calls == old(out.calls) && out.state == old(out.state)
    ensures out.window == old(out.window)
  {
    if target == Unrecognised {
      return false;
    }
    out.api := backend.table;
    if out.api.init.Some? {
      out.calls := out.calls + [out.api.init.value];
      out.state := backend.initState;
      return true;
    }
    return false;
  }

  /**
   * `platformShutdown(p)`. A null platform is left alone. Otherwise the
   * backend's `shutdown` is invoked exactly when its slot is non-null, and
   * then every slot, the window and the state are null.
   */
  method PlatformShutdown(p: Platform?)
    modifies p
    ensures p != null ==> p.api == EmptyApi && p.window == null && p.state == null
    ensures p != null ==>
      p.calls == old(p.calls) + (if old(p.api.shutdown).Some? then [old(p.api.shutdown).value] else [])
  {
    if p == null {
      return;
    }
    if p.api.shutdown.Some? {
      p.calls := p.calls + [p.api.shutdown.value];
    }
    p.api := EmptyApi;
    p.window := null;
    p.state := null;
  }

  /** A second shutdown invokes nothing and only re-nulls what is already null. */
  method ShutdownTwice(p: Platform)
    modifies p
    ensures p.api == EmptyApi && p.window == null && p.state == null
    ensures p.calls == old(p.calls) + (if old(p.api.shutdown).Some? then [old(p.api.shutdown).value] else [])
  {
    PlatformShutdown(p);
    ghost var once := p.calls;
    PlatformShutdown(p);
    assert p.calls == once;
  }

  /** The Linux table leaves only `log` null, so init on Linux succeeds. */
  lemma LinuxInitSucceeds(initState: object?)
    ensures InitSucceeds(Linux, Backend(LinuxApi, initState))
    ensures !InitSucceeds(Unrecognised, Backend(LinuxApi, initState))
    ensures LinuxApi.log.None? && LinuxApi != EmptyApi
  {
  }

  /**
   * A whole lifecycle on Linux: init succeeds, invoking `linux_init`, which
   * stores a state; shutdown invokes `linux_shutdown` and clears everything.
   */
  method LinuxLifecycle() returns (p: Platform, ok: bool)
    ensures ok
    ensures p.calls == [Fn("linux_init"), Fn("linux_shutdown")]
    ensures p.api == EmptyApi && p.window == null && p.state == null
  {
    p := new Platform();
    var st := new LinuxState();
    ok := PlatformInit(p, Linux, Backend(LinuxApi, st));
    PlatformShutdown(p);
  }
}
