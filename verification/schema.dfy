/** The argument schema of the `axe_scan_url` tool: which fields a request may
    carry, which constraints they must meet, and the defaults filled in for the
    ones left out (src/index.ts:11-37).

    A raw request is already typed: each field is either absent or a value of the
    field's type. Whether a string is a well-formed URL is decided by a predicate
    the caller supplies. */
module Schema {
  import opened Wrappers

  const DefaultTags: seq<string> := ["wcag2a"]
  const DefaultBrowser: string := "chromium"
  const DefaultHeadless: bool := true
  const DefaultPostNavigationWaitMs: int := 1000
  const DefaultIncludeSummary: bool := false

  const BrowserNames: seq<string> := ["chromium", "firefox", "webkit"]
  const WaitUntilValues: seq<string> := ["load", "domcontentloaded", "networkidle", "commit"]

  /** The free-form `axeOptions` record, keys to JSON texts; its contents are opaque here. */
  type AxeOptions = map<string, string>

  /** The optional viewport descriptor; every field of it is optional on its own. */
  datatype Viewport = Viewport(
    width: Option<int>,
    height: Option<int>,
    deviceScaleFactor: Option<real>,
    userAgent: Option<string>)

  /** A request as it arrives, every field possibly absent. */
  datatype RawArgs = RawArgs(
    url: Option<string>,
    tags: Option<seq<string>>,
    runOnlyRules: Option<seq<string>>,
    disableRules: Option<seq<string>>,
    includeSelectors: Option<seq<string>>,
    excludeSelectors: Option<seq<string>>,
    waitUntil: Option<string>,
    navigationTimeoutMs: Option<int>,
    legacyMode: Option<bool>,
    viewport: Option<Viewport>,
    browser: Option<string>,
    headless: Option<bool>,
    postNavigationWaitMs: Option<int>,
    waitForSelector: Option<string>,
    axeOptions: Option<AxeOptions>,
    includeSummary: Option<bool>)

  /** A request after validation: the defaulted fields are always present. */
  datatype Args = Args(
    url: string,
    tags: seq<string>,
    runOnlyRules: Option<seq<string>>,
    disableRules: Option<seq<string>>,
    includeSelectors: Option<seq<string>>,
    excludeSelectors: Option<seq<string>>,
    waitUntil: Option<string>,
    navigationTimeoutMs: Option<int>,
    legacyMode: Option<bool>,
    viewport: Option<Viewport>,
    browser: string,
    headless: bool,
    postNavigationWaitMs: int,
    waitForSelector: Option<string>,
    axeOptions: Option<AxeOptions>,
    includeSummary: bool)

  /** Why a request was rejected: the field and the constraint it broke. */
  datatype Issue =
    | Required(field: string)
    | InvalidUrl(received: string)
    | InvalidEnum(field: string, received: string)
    | NotPositive(field: string)
    | Negative(field: string)

  predicate PositiveInt(n: Option<int>) {
    n.Some? ==> n.value > 0
  }

  predicate PositiveReal(x: Option<real>) {
    x.Some? ==> x.value > 0.0
  }

  predicate ViewportOk(vp: Option<Viewport>) {
    vp.Some? ==>
      && PositiveInt(vp.value.width)
      && PositiveInt(vp.value.height)
      && PositiveReal(vp.value.deviceScaleFactor)
  }

  /** The constraints of the schema, field by field, on a raw request. */
  predicate Acceptable(raw: RawArgs, validUrl: string -> bool) {
    && raw.url.Some?
    && validUrl(raw.url.value)
    && (raw.waitUntil.Some? ==> raw.waitUntil.value in WaitUntilValues)
    && PositiveInt(raw.navigationTimeoutMs)
    && ViewportOk(raw.viewport)
    && (raw.browser.Some? ==> raw.browser.value in BrowserNames)
    && (raw.postNavigationWaitMs.Some? ==> raw.postNavigationWaitMs.value >= 0)
  }

  /** What every validated request satisfies. */
  predicate Valid(a: Args, validUrl: string -> bool) {
    && validUrl(a.url)
    && (a.waitUntil.Some? ==> a.waitUntil.value in WaitUntilValues)
    && PositiveInt(a.navigationTimeoutMs)
    && ViewportOk(a.viewport)
    && a.browser in BrowserNames
    && a.postNavigationWaitMs >= 0
  }

  /** Validates a raw request and fills in the defaults (`AxeScanSchema.parse`).
      The first broken constraint, in schema order, is reported. */
  function Parse(raw: RawArgs, validUrl: string -> bool): (r: Result<Args, Issue>)
    ensures r.Success? <==> Acceptable(raw, validUrl)
    ensures r.Success? ==> Valid(r.value, validUrl)
    ensures r.Success? ==> Some(r.value.url) == raw.url
    ensures r.Success? && raw.tags.None? ==> r.value.tags == ["wcag2a"]
    ensures r.Success? && raw.browser.None? ==> r.value.browser == "chromium"
    ensures r.Success? && raw.headless.None? ==> r.value.headless
    ensures r.Success? && raw.postNavigationWaitMs.None? ==> r.value.postNavigationWaitMs == 1000
    ensures r.Success? && raw.includeSummary.None? ==> !r.value.includeSummary
    ensures r.Success? ==> Supplied(raw, r.value)
  {
    if raw.url.None? then Failure(Required("url"))
    else if !validUrl(raw.url.value) then Failure(InvalidUrl(raw.url.value))
    else if raw.waitUntil.Some? && raw.waitUntil.value !in WaitUntilValues then
      Failure(InvalidEnum("waitUntil", raw.waitUntil.value))
    else if !PositiveInt(raw.navigationTimeoutMs) then Failure(NotPositive("navigationTimeoutMs"))
    else if raw.viewport.Some? && !PositiveInt(raw.viewport.value.width) then
      Failure(NotPositive("viewport.width"))
    else if raw.viewport.Some? && !PositiveInt(raw.viewport.value.height) then
      Failure(NotPositive("viewport.height"))
    else if raw.viewport.Some? && !PositiveReal(raw.viewport.value.deviceScaleFactor) then
      Failure(NotPositive("viewport.deviceScaleFactor"))
    else if raw.browser.Some? && raw.browser.value !in BrowserNames then
      Failure(InvalidEnum("browser", raw.browser.value))
    else if raw.postNavigationWaitMs.Some? && raw.postNavigationWaitMs.value < 0 then
      Failure(Negative("postNavigationWaitMs"))
    else
      Success(Args(
        url := raw.url.value,
        tags := raw.tags.GetOr(DefaultTags),
        runOnlyRules := raw.runOnlyRules,
        disableRules := raw.disableRules,
        includeSelectors := raw.includeSelectors,
        excludeSelectors := raw.excludeSelectors,
        waitUntil := raw.waitUntil,
        navigationTimeoutMs := raw.navigationTimeoutMs,
        legacyMode := raw.legacyMode,
        viewport := raw.viewport,
        browser := raw.browser.GetOr(DefaultBrowser),
        headless := raw.headless.GetOr(DefaultHeadless),
        postNavigationWaitMs := raw.postNavigationWaitMs.GetOr(DefaultPostNavigationWaitMs),
        waitForSelector := raw.waitForSelector,
        axeOptions := raw.axeOptions,
        includeSummary := raw.includeSummary.GetOr(DefaultIncludeSummary)))
  }

  /** Every field the request did supply reaches the parsed arguments unchanged. */
  predicate Supplied(raw: RawArgs, a: Args) {
    && (raw.tags.Some? ==> a.tags == raw.tags.value)
    && a.runOnlyRules == raw.runOnlyRules
    && a.disableRules == raw.disableRules
    && a.includeSelectors == raw.includeSelectors
    && a.excludeSelectors == raw.excludeSelectors
    && a.waitUntil == raw.waitUntil
    && a.navigationTimeoutMs == raw.navigationTimeoutMs
    && a.legacyMode == raw.legacyMode
    && a.viewport == raw.viewport
    && (raw.browser.Some? ==> a.browser == raw.browser.value)
    && (raw.headless.Some? ==> a.headless == raw.headless.value)
    && (raw.postNavigationWaitMs.Some? ==> a.postNavigationWaitMs == raw.postNavigationWaitMs.value)
    && a.waitForSelector == raw.waitForSelector
    && a.axeOptions == raw.axeOptions
    && (raw.includeSummary.Some? ==> a.includeSummary == raw.includeSummary.value)
  }

  /** The request that spells out every field of already parsed arguments. */
  function ToRaw(a: Args): RawArgs {
    RawArgs(
      Some(a.url), Some(a.tags), a.runOnlyRules, a.disableRules, a.includeSelectors,
      a.excludeSelectors, a.waitUntil, a.navigationTimeoutMs, a.legacyMode, a.viewport,
      Some(a.browser), Some(a.headless), Some(a.postNavigationWaitMs), a.waitForSelector,
      a.axeOptions, Some(a.includeSummary))
  }

  /** The request carrying only a URL, every other field left to its default. */
  function OnlyUrl(url: string): RawArgs {
    RawArgs(Some(url), None, None, None, None, None, None, None, None, None, None, None,
            None, None, None, None)
  }

  /** Parsing accepts exactly the valid argument records and returns them unchanged
      once every field is spelled out. */
  lemma ParseToRaw(a: Args, validUrl: string -> bool)
    ensures Valid(a, validUrl) <==> Parse(ToRaw(a), validUrl) == Success(a)
  {
  }

  /** Defaulting is idempotent: parsing what parsing produced changes nothing. */
  lemma ParseIdempotent(raw: RawArgs, validUrl: string -> bool)
    requires Parse(raw, validUrl).Success?
    ensures Parse(ToRaw(Parse(raw, validUrl).value), validUrl) == Parse(raw, validUrl)
  {
    ParseToRaw(Parse(raw, validUrl).value, validUrl);
  }

  /** A request that names only a valid URL gets every documented default. */
  lemma OnlyUrlDefaults(url: string, validUrl: string -> bool)
    requires validUrl(url)
    ensures Parse(OnlyUrl(url), validUrl) == Success(Args(
      url, ["wcag2a"], None, None, None, None, None, None, None, None,
      "chromium", true, 1000, None, None, false))
  {
  }
}
