/** How a validated request configures the browser session before any page is
    opened: the engine to launch, the options of the browsing context, and the
    navigation wait condition (src/index.ts:42-52, 55-58). */
module Browser {
  import opened Wrappers
  import opened Schema

  /** The three browser engines the automation library offers. */
  datatype Engine = Chromium | Firefox | Webkit {
    function Name(): string {
      match this
      case Chromium => "chromium"
      case Firefox => "firefox"
      case Webkit => "webkit"
    }
  }

  const DefaultWidth: int := 1280
  const DefaultHeight: int := 720
  const DefaultDeviceScaleFactor: real := 1.0
  const DefaultWaitUntil: string := "load"

  /** The options a browsing context is created with. */
  datatype ContextOptions = ContextOptions(
    width: int,
    height: int,
    deviceScaleFactor: real,
    userAgent: Option<string>)

  /** The engine launched for a browser name: firefox and webkit by name, chromium
      for every other name. */
  function Launcher(browser: string): (e: Engine)
    ensures browser in BrowserNames ==> e.Name() == browser
    ensures browser !in BrowserNames ==> e == Chromium
  {
    if browser == "firefox" then Firefox
    else if browser == "webkit" then Webkit
    else Chromium
  }

  /** The context options for an optional viewport. Each field falls back to its own
      default when it is absent, whether or not the viewport or its other fields are
      given. */
  function ResolveViewport(vp: Option<Viewport>): (c: ContextOptions)
    ensures vp.Some? && vp.value.width.Some? ==> c.width == vp.value.width.value
    ensures vp.None? || vp.value.width.None? ==> c.width == 1280
    ensures vp.Some? && vp.value.height.Some? ==> c.height == vp.value.height.value
    ensures vp.None? || vp.value.height.None? ==> c.height == 720
    ensures vp.Some? && vp.value.deviceScaleFactor.Some? ==>
              c.deviceScaleFactor == vp.value.deviceScaleFactor.value
    ensures vp.None? || vp.value.deviceScaleFactor.None? ==> c.deviceScaleFactor == 1.0
    ensures vp.Some? ==> c.userAgent == vp.value.userAgent
    ensures vp.None? ==> c.userAgent.None?
  {
    var width := if vp.Some? then vp.value.width else None;
    var height := if vp.Some? then vp.value.height else None;
    var scale := if vp.Some? then vp.value.deviceScaleFactor else None;
    var agent := if vp.Some? then vp.value.userAgent else None;
    ContextOptions(
      width.GetOr(DefaultWidth),
      height.GetOr(DefaultHeight),
      scale.GetOr(DefaultDeviceScaleFactor),
      agent)
  }

  /** The wait-until condition handed to navigation: the requested one, or "load". */
  function ResolveWaitUntil(waitUntil: Option<string>): (w: string)
    ensures waitUntil.None? ==> w == "load"
    ensures waitUntil.Some? ==> w == waitUntil.value
  {
    waitUntil.GetOr(DefaultWaitUntil)
  }

  /** A validated request never has its chosen engine silently replaced. */
  lemma LauncherHonoursChoice(a: Args, validUrl: string -> bool)
    requires Valid(a, validUrl)
    ensures Launcher(a.browser).Name() == a.browser
  {
  }

  /** A validated request always yields a positive viewport and scale, and a
      navigation condition from the fixed list. */
  lemma ResolvedOptionsInRange(a: Args, validUrl: string -> bool)
    requires Valid(a, validUrl)
    ensures ResolveViewport(a.viewport).width > 0
    ensures ResolveViewport(a.viewport).height > 0
    ensures ResolveViewport(a.viewport).deviceScaleFactor > 0.0
    ensures ResolveWaitUntil(a.waitUntil) in WaitUntilValues
  {
  }

  /** Each resolved field depends only on its own input field: two viewports that
      agree on one field resolve to the same value for it, whatever the others are. */
  lemma ViewportFieldsIndependent(v1: Viewport, v2: Viewport)
    ensures v1.width == v2.width ==>
              ResolveViewport(Some(v1)).width == ResolveViewport(Some(v2)).width
    ensures v1.height == v2.height ==>
              ResolveViewport(Some(v1)).height == ResolveViewport(Some(v2)).height
    ensures v1.deviceScaleFactor == v2.deviceScaleFactor ==>
              ResolveViewport(Some(v1)).deviceScaleFactor == ResolveViewport(Some(v2)).deviceScaleFactor
    ensures v1.userAgent == v2.userAgent ==>
              ResolveViewport(Some(v1)).userAgent == ResolveViewport(Some(v2)).userAgent
  {
  }

  /** Supplying only a width keeps the default height, scale and user agent. */
  lemma WidthOnlyViewport(w: int)
    ensures ResolveViewport(Some(Viewport(Some(w), None, None, None)))
            == ContextOptions(w, 720, 1.0, None)
  {
  }
}
