# axe-scanner-mcp: request handling and scan orchestration in Dafny

axe-scanner-mcp is a server that exposes one tool, `axe_scan_url`. The tool loads
a web page in a headless browser and runs the axe-core accessibility rule engine
on it. This project models the decision logic of `src/index.ts`:

- how a tool request is validated and defaulted (`AxeScanSchema`);
- which browser engine is launched and with which context options;
- the ordered actions of one scan, where any external call may throw, and the
  `finally` block that closes the context and then the browser;
- the rule-engine configuration, as an ordered list of builder calls;
- the summary counts, and the success and failure payloads.

Playwright and axe-core are not modelled. Each call into them is an
uninterpreted `Action`. A `World` value says which calls throw and what the
analysis returns. Whether a string is a well-formed URL is a predicate
`validUrl` that the caller supplies.

Modules, one file each:

- `wrappers.dfy`: `Option` and `Result`.
- `text.dfy`: decimal rendering of counts, `join` and `includes`.
- `schema.dfy`: the request schema, its constraints and its defaults.
- `browser.dfy`: the engine choice, the viewport and context options, and the
  wait-until condition.
- `builder.dfy`: the rule-engine builder calls.
- `orchestrator.dfy`: the actions and outcome of one scan.
- `handler.dfy`: the tool handler and its payloads.

## Model

| member | source | states |
|---|---|---|
| Schema.Parse | src/index.ts:13-37 | Parsing succeeds exactly when every schema constraint holds. Those constraints are: a valid URL, a known `waitUntil` value, a positive timeout, a positive viewport width, height and scale, a known browser name, and a non-negative settle wait. An absent field gets its default: tags `["wcag2a"]`, browser `"chromium"`, headless `true`, settle wait 1000, `includeSummary` false. A supplied field passes through unchanged. |
| Schema.ParseToRaw | src/index.ts:13-37 | Spelling out every field of an argument record and parsing it gives the record back exactly when the record is valid. |
| Schema.ParseIdempotent | src/index.ts:13-37 | Parsing the output of parsing changes nothing: defaulting is idempotent. |
| Schema.OnlyUrlDefaults | src/index.ts:15-36 | A request that gives only a valid URL gets exactly the documented defaults, and leaves every optional field absent. |
| Browser.Launcher | src/index.ts:42-43 | A known browser name launches the engine of that name. Any other name launches chromium. |
| Browser.LauncherHonoursChoice | src/index.ts:42-43 | For a validated request, the launched engine is always the one the request named. |
| Browser.ResolveViewport | src/index.ts:45-52 | Each context option is taken from its own viewport field when that field is given. Otherwise it falls back to 1280, 720, scale 1 or no user agent, whether or not the viewport or its other fields are present. |
| Browser.ViewportFieldsIndependent | src/index.ts:46-51 | Two viewports that agree on one field resolve to the same value for that field, whatever their other fields are. |
| Browser.WidthOnlyViewport | src/index.ts:45-52 | A viewport that gives only a width keeps height 720, scale 1 and no user agent. |
| Browser.ResolvedOptionsInRange | src/index.ts:20-28 | For a validated request, the resolved width, height and scale are positive, and the navigation condition is one of the four allowed values. |
| Browser.ResolveWaitUntil | src/index.ts:56 | Navigation waits for `"load"` when no condition is given. Otherwise it waits for the given condition. |
| Builder.StepsRanked | src/index.ts:67-91 | In the builder-call list, no call is ever followed by a call of lower precedence. The order is: rule selection, disable, includes, excludes, legacy, options. |
| Builder.Configure | src/index.ts:67-91 | The imperative builder loop, which appends one call per applicable option and one per selector, produces exactly the list `Steps`. |
| Builder.AppendIncludes | src/index.ts:76-80 | The include loop appends one `Include` call per selector, in input order. |
| Builder.AppendExcludes | src/index.ts:81-85 | The exclude loop appends one `Exclude` call per selector, in input order. |
| Builder.RuleSelection | src/index.ts:68-72 | A `WithRules` call appears exactly when `runOnlyRules` is non-empty, and it carries that list. A `WithTags` call appears exactly when `runOnlyRules` is absent or empty and the tags are non-empty, and it carries the tags. Either call is the first call. |
| Builder.DisableAfterSelection | src/index.ts:73-75 | A `Disable` call appears exactly when `disableRules` is non-empty. It carries that list, appears once, and comes right after the rule-selection call. |
| Builder.ScopeSteps | src/index.ts:76-85 | The include selectors registered are exactly the given ones, in order, and likewise the exclude selectors. Every include call precedes every exclude call. |
| Builder.LegacyWhenGiven | src/index.ts:86-88 | A `Legacy(b)` call appears exactly when legacy mode was given as `b`. |
| Builder.OptionsLast | src/index.ts:89-91 | An `Options` call appears exactly when engine options were given. It carries them and is the last call. |
| Builder.StepCount | src/index.ts:67-91 | The list has one call per applicable option plus one per include or exclude selector. |
| Orchestrator.Attempt | src/index.ts:54-92 | Awaiting calls in sequence attempts a prefix of them. All but the last attempted call succeed. The run fails exactly when some call throws, and then the last attempted call is the one that threw. |
| Orchestrator.Scan | src/index.ts:41-104 | The trace starts with the launch of the chosen engine. The scan succeeds exactly when no planned call throws. It then performed the whole plan and returns the analysis, with summary counts equal to the lengths of its four lists. A failure carries the value thrown by one of the traced calls. |
| Orchestrator.ScanOrdered | src/index.ts:41-104 | On every path the calls follow the fixed order launch, new context, new page, goto, selector wait, fixed wait, analyze, close context, close browser. Each call happens at most once, and every call made belongs to the plan. |
| Orchestrator.PageActionPlan | src/index.ts:54-66 | The page actions start with a new page and then navigation with the resolved condition and timeout. The selector wait is present exactly when a non-empty selector is given. The fixed wait is present exactly when its duration is positive. Analysis, with the request's builder calls, comes last. |
| Orchestrator.ScanCleanup | src/index.ts:100-103 | Once the context exists, the context is always closed. If that close succeeds, the trace ends with close-context then close-browser. If it throws, that error replaces any earlier one. A throwing browser close also replaces any earlier error. When both closes succeed, an error from the page actions is the one reported. A failure in launch or newContext closes nothing. |
| Orchestrator.ScanStopsAtFailure | src/index.ts:53-103 | After a call throws, only cleanup calls follow. After a cleanup call throws, nothing follows. |
| Handler.FailurePayload | src/index.ts:151-166 | A failure payload is never successful and carries the error text. It has the installation hint exactly when the thrown value is an `Error` whose message contains "Executable doesn't exist". |
| Handler.ShapeFailure | src/index.ts:152-156 | Computing the failure payload with a left-to-right substring search gives the same payload. |
| Handler.SuccessPayload | src/index.ts:122-137 | A success payload is successful and echoes the URL, the summary and the analysis. It has summary text exactly when `includeSummary` is set. |
| Handler.SummaryTextTemplate | src/index.ts:130-136 | The summary text is exactly "Axe scan completed for <url>. Violations: <n>. Passed rules: <n>. Incomplete checks: <n>. Inapplicable rules: <n>." with the counts in decimal. |
| Handler.Handle | src/index.ts:118-173 | A rejected request produces a failure payload and no browser action at all. The payload is successful exactly when the request is accepted and the scan succeeds. It then echoes the request URL and carries the scan's analysis and summary unchanged, whose counts equal the lengths of the analysis lists. For an accepted request, the actions performed are exactly the scan's. |
| Handler.SummaryTextWhenAsked | src/index.ts:129-137 | A successful response has summary text exactly when the request set `includeSummary` to true. The text then states the lengths of the returned lists in the template. |
| Handler.FailureReportsError | src/index.ts:151-172 | A failed scan is reported with its thrown text, plus the hint exactly for a missing-browser `Error`. |
| Handler.MissingBrowserAtLaunch | src/index.ts:153-156 | A launch that throws a missing-browser `Error` yields a trace holding only the launch, and a failure payload with that message and the hint. |
| Handler.DefaultRequestScenario | src/index.ts:13-99 | For a request with only a URL, where nothing throws, the trace is: launch chromium headless, create a 1280x720 context at scale 1, open a page, go to the URL until "load", wait 1000 ms, analyze with tag "wcag2a", close the context, close the browser. The payload succeeds and has no summary text. |
| Handler.FirefoxHeadedScenario | src/index.ts:42-44 | Asking for firefox with `headless: false` launches firefox non-headless. |
| Text.ShowNat | src/index.ts:132-135 | A count renders as a non-empty string of digits with no leading zero, and as "0" exactly for zero. |
| Text.ParseShowRoundTrip | src/index.ts:132-135 | Reading back the decimal text of a count gives the count. |
| Text.Join | src/index.ts:136 | Joining gives the empty string for no parts. Otherwise it starts with the first part and has the length of all parts plus one separator between each neighbouring pair. |
| Text.JoinSnoc | src/index.ts:136 | Appending a part to a non-empty list appends one separator and then that part. Together with the one-part case, this fixes the whole content of the joined string. |
| Text.Includes | src/index.ts:154 | The substring search reports a match exactly when the text contains the pattern somewhere. |

## Left out

- Server and transport wiring (src/index.ts:1-9, 106-117, 177-183): creating the server, registering the tool, the stdio transport and loading the package version. These are I/O.
- The JSON text of the payload (src/index.ts:139-150, 157-171): the payload is a record. A `hint` of `undefined`, which `JSON.stringify` drops, is an absent `Option`.
- `scripts/run-axe-scan.ts`: a command-line client that spawns the server over stdio and prints its reply. It is transport only.
- What Playwright and axe-core do: navigation, selector matching, timing and rule evaluation are not modelled. In particular, the model does not say which rules run when an allow-list and a deny-list overlap; that is up to the rule engine.
- URL well-formedness, which is the supplied `validUrl` predicate, and zod's type checks. Raw fields are already typed, so the model does not reject non-integer or non-numeric values.
- Schema.Parse reports the first broken constraint in schema order, while zod collects all of them. Handler.Rejection gives a short per-field message instead of zod's JSON issue list. Only the fact of rejection is modelled exactly.
- `deviceScaleFactor` is a `real`. No floating-point behaviour is modelled.
- Wall-clock time: waits and timeouts are values carried by actions, not durations.
- The contents of `axeOptions` (a map to opaque JSON texts) and of the rule engine's finding records (`Finding`): both pass through unexamined.
- Concurrent handler calls: each call is modelled on its own, since calls share no state.
- A throwing `newContext` (src/index.ts:45) runs before the `try`. So the launched browser is never closed on that path. `Orchestrator.ScanCleanup` states this.
- The `finally` block (src/index.ts:100-103) awaits `context.close()` and then `browser.close()`. A throwing `context.close()` skips `browser.close()`. A throw from either close replaces the scan's earlier outcome. `Orchestrator.ScanCleanup` states this.
- The `"wcag2a"` default (src/index.ts:15) applies only when `tags` is absent. An explicit empty `tags` list makes `tags.length` falsy at src/index.ts:70, so no tag call is made at all. `Builder.RuleSelection` states this.
