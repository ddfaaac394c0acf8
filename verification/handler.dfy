/** The `axe_scan_url` tool handler (src/index.ts:118-173): validate the request,
    run the scan, and turn either outcome into a payload. Nothing escapes the
    handler: a rejected request and every thrown value become a failure payload.
    The payload is modelled as a record; its JSON text is not. */
module Handler {
  import opened Wrappers
  import opened Text
  import opened Schema
  import opened Browser
  import opened Builder
  import opened Orchestrator

  /** The text that identifies a launch failure caused by missing browser binaries. */
  const MissingBrowserSignature: string := "Executable doesn't exist"

  const MissingBrowserHint: string :=
    "Playwright browsers are missing. Run `npx playwright install` (add --with-deps on macOS/Linux if prompted)."

  /** The payload returned to the caller. */
  datatype Payload =
    | Succeeded(url: string, summary: Summary, analysis: AxeResults, summaryText: Option<string>)
    | Failed(error: string, hint: Option<string>)
  {
    /** The payload's `success` field. */
    predicate Success() {
      Succeeded?
    }
  }

  /** The error text of a thrown value: an `Error`'s message, or the value as a string. */
  function MessageOf(t: Thrown): string {
    match t
    case ErrorValue(m) => m
    case OtherValue(text) => text
  }

  /** The validation failure thrown when a request is rejected, as an `Error`. */
  function Rejection(issue: Issue): Thrown {
    ErrorValue(match issue
      case Required(field) => field + ": Required"
      case InvalidUrl(_) => "url: Invalid url"
      case InvalidEnum(field, received) => field + ": Invalid enum value, received '" + received + "'"
      case NotPositive(field) => field + ": Number must be greater than 0"
      case Negative(field) => field + ": Number must be greater than or equal to 0")
  }

  /** A thrown `Error` whose message reports missing browser binaries. */
  predicate MissingBrowser(t: Thrown) {
    t.ErrorValue? && Contains(t.message, MissingBrowserSignature)
  }

  /** The failure payload for a thrown value: never successful, carrying the error
      text, with the installation hint exactly for a missing-browser `Error`. */
  function FailurePayload(t: Thrown): (p: Payload)
    ensures !p.Success()
    ensures p.error == MessageOf(t)
    ensures p.hint.Some? <==> MissingBrowser(t)
    ensures p.hint.Some? ==> p.hint.value == MissingBrowserHint
  {
    Failed(MessageOf(t), if MissingBrowser(t) then Some(MissingBrowserHint) else None)
  }

  /** The failure payload computed with a substring search, as the handler does. */
  method ShapeFailure(t: Thrown) returns (p: Payload)
    ensures p == FailurePayload(t)
  {
    var hint: Option<string> := None;
    if t.ErrorValue? {
      var missing := Includes(t.message, MissingBrowserSignature);
      if missing {
        hint := Some(MissingBrowserHint);
      }
    }
    p := Failed(MessageOf(t), hint);
  }

  /** The human-readable summary: five sentences joined by single spaces. */
  function SummaryText(url: string, s: Summary): string {
    Join([
      "Axe scan completed for " + url + ".",
      "Violations: " + ShowNat(s.violations) + ".",
      "Passed rules: " + ShowNat(s.passes) + ".",
      "Incomplete checks: " + ShowNat(s.incomplete) + ".",
      "Inapplicable rules: " + ShowNat(s.inapplicable) + "."
    ], " ")
  }

  /** A sentence ending in a full stop, a space, then the rest. */
  lemma Glue(head: string, rest: string)
    ensures (head + ".") + " " + rest == head + ". " + rest
  {
  }

  lemma Assoc(x: string, y: string, z: string)
    ensures x + (y + z) == (x + y) + z
  {
  }

  /** The summary text is exactly the documented template with the four counts
      written in decimal. */
  lemma SummaryTextTemplate(url: string, s: Summary)
    ensures SummaryText(url, s) ==
      "Axe scan completed for " + url + ". "
      + "Violations: " + ShowNat(s.violations) + ". "
      + "Passed rules: " + ShowNat(s.passes) + ". "
      + "Incomplete checks: " + ShowNat(s.incomplete) + ". "
      + "Inapplicable rules: " + ShowNat(s.inapplicable) + "."
  {
    var h0 := "Axe scan completed for " + url;
    var h1 := "Violations: " + ShowNat(s.violations);
    var h2 := "Passed rules: " + ShowNat(s.passes);
    var h3 := "Incomplete checks: " + ShowNat(s.incomplete);
    var p4 := "Inapplicable rules: " + ShowNat(s.inapplicable) + ".";
    var parts := [h0 + ".", h1 + ".", h2 + ".", h3 + ".", p4];
    assert parts[1..] == [h1 + ".", h2 + ".", h3 + ".", p4];
    assert parts[1..][1..] == [h2 + ".", h3 + ".", p4];
    assert parts[1..][1..][1..] == [h3 + ".", p4];
    assert parts[1..][1..][1..][1..] == [p4];
    var b1, b2, b3 := h1 + ". ", h2 + ". ", h3 + ". ";
    var r3 := b3 + p4;
    var r2 := b2 + r3;
    var r1 := b1 + r2;
    var r0 := (h0 + ". ") + r1;
    assert Join([h3 + ".", p4], " ") == r3 by { Glue(h3, p4); }
    assert Join([h2 + ".", h3 + ".", p4], " ") == r2 by { Glue(h2, r3); }
    assert Join([h1 + ".", h2 + ".", h3 + ".", p4], " ") == r1 by { Glue(h1, r2); }
    assert Join(parts, " ") == r0 by { Glue(h0, r1); }
    assert SummaryText(url, s) == r0;
    // Regroup the right-nested join into the left-nested template.
    var u0 := "Axe scan completed for " + url + ". ";
    var u1 := u0 + "Violations: " + ShowNat(s.violations) + ". ";
    var u2 := u1 + "Passed rules: " + ShowNat(s.passes) + ". ";
    var u3 := u2 + "Incomplete checks: " + ShowNat(s.incomplete) + ". ";
    var t := u3 + "Inapplicable rules: " + ShowNat(s.inapplicable) + ".";
    assert u1 == u0 + b1 by {
      Assoc(u0, "Violations: ", ShowNat(s.violations));
      Assoc(u0, h1, ". ");
    }
    assert u2 == u1 + b2 by {
      Assoc(u1, "Passed rules: ", ShowNat(s.passes));
      Assoc(u1, h2, ". ");
    }
    assert u3 == u2 + b3 by {
      Assoc(u2, "Incomplete checks: ", ShowNat(s.incomplete));
      Assoc(u2, h3, ". ");
    }
    assert t == u3 + p4 by {
      Assoc(u3, "Inapplicable rules: ", ShowNat(s.inapplicable));
      Assoc(u3, "Inapplicable rules: " + ShowNat(s.inapplicable), ".");
    }
    calc {
      r0;
      u0 + (b1 + (b2 + (b3 + p4)));
      { Assoc(u0, b1, b2 + (b3 + p4)); }
      u1 + (b2 + (b3 + p4));
      { Assoc(u1, b2, b3 + p4); }
      u2 + (b3 + p4);
      { Assoc(u2, b3, p4); }
      t;
    }
  }

  /** The success payload: successful, echoing the URL, the analysis and its
      summary, with the summary text exactly when it was asked for. */
  function SuccessPayload(a: Args, r: ScanResult): (p: Payload)
    ensures p.Success()
    ensures p.url == a.url && p.summary == r.summary && p.analysis == r.analysis
    ensures p.summaryText.Some? <==> a.includeSummary
    ensures p.summaryText.Some? ==> p.summaryText.value == SummaryText(a.url, r.summary)
  {
    Succeeded(a.url, r.summary, r.analysis,
              if a.includeSummary then Some(SummaryText(a.url, r.summary)) else None)
  }

  /** The actions a request caused and the payload it produced. */
  datatype Response = Response(trace: seq<Action>, payload: Payload)

  /** The tool handler: a rejected request never reaches the browser; an accepted
      one is scanned, its actions are the scan's, and the payload is successful
      exactly when the scan is, carrying the scan's analysis and summary. */
  function Handle(raw: RawArgs, validUrl: string -> bool, w: World): (h: Response)
    ensures !Acceptable(raw, validUrl) ==> h.trace == [] && !h.payload.Success()
    ensures h.payload.Success() <==>
              Acceptable(raw, validUrl) && Scan(Parse(raw, validUrl).value, w).result.Success?
    ensures h.payload.Success() ==>
              && Some(h.payload.url) == raw.url
              && h.payload.summary.violations == |h.payload.analysis.violations|
              && h.payload.summary.passes == |h.payload.analysis.passes|
              && h.payload.summary.incomplete == |h.payload.analysis.incomplete|
              && h.payload.summary.inapplicable == |h.payload.analysis.inapplicable|
    ensures h.payload.Success() ==>
              h.payload.analysis == w.results && h.payload.summary == Summarize(w.results)
    ensures Acceptable(raw, validUrl) ==> h.trace == Scan(Parse(raw, validUrl).value, w).trace
  {
    match Parse(raw, validUrl)
    case Failure(issue) => Response([], FailurePayload(Rejection(issue)))
    case Success(a) =>
      var o := Scan(a, w);
      match o.result
      case Success(r) => Response(o.trace, SuccessPayload(a, r))
      case Failure(t) => Response(o.trace, FailurePayload(t))
  }

  /** A successful response carries the summary text exactly when the request asked
      for it, and then the text spells out the counts of the returned analysis. */
  lemma SummaryTextWhenAsked(raw: RawArgs, validUrl: string -> bool, w: World)
    requires Handle(raw, validUrl, w).payload.Success()
    ensures var h := Handle(raw, validUrl, w);
      && (h.payload.summaryText.Some? <==> raw.includeSummary == Some(true))
      && (h.payload.summaryText.Some? ==>
            h.payload.summaryText.value ==
              "Axe scan completed for " + h.payload.url + ". "
              + "Violations: " + ShowNat(|h.payload.analysis.violations|) + ". "
              + "Passed rules: " + ShowNat(|h.payload.analysis.passes|) + ". "
              + "Incomplete checks: " + ShowNat(|h.payload.analysis.incomplete|) + ". "
              + "Inapplicable rules: " + ShowNat(|h.payload.analysis.inapplicable|) + ".")
  {
    var h := Handle(raw, validUrl, w);
    var a := Parse(raw, validUrl).value;
    assert h.payload == SuccessPayload(a, Scan(a, w).result.value);
    assert h.payload.summary == Summarize(h.payload.analysis);
    SummaryTextTemplate(h.payload.url, h.payload.summary);
  }

  /** A failure reports the thrown text; the hint appears exactly for an `Error`
      whose message reports missing browser binaries. */
  lemma FailureReportsError(raw: RawArgs, validUrl: string -> bool, w: World)
    requires Acceptable(raw, validUrl)
    requires Scan(Parse(raw, validUrl).value, w).result.Failure?
    ensures var t := Scan(Parse(raw, validUrl).value, w).result.error;
      Handle(raw, validUrl, w).payload ==
        Failed(MessageOf(t), if MissingBrowser(t) then Some(MissingBrowserHint) else None)
  {
  }

  /** A launch that throws a missing-browser `Error` is reported with the hint, and
      nothing but the launch was attempted. */
  lemma MissingBrowserAtLaunch(raw: RawArgs, validUrl: string -> bool, w: World, message: string)
    requires Acceptable(raw, validUrl)
    requires var a := Parse(raw, validUrl).value;
      w.outcome(Launch(Launcher(a.browser), a.headless)) == Some(ErrorValue(message))
    requires Contains(message, MissingBrowserSignature)
    ensures var a := Parse(raw, validUrl).value;
      Handle(raw, validUrl, w) ==
        Response([Launch(Launcher(a.browser), a.headless)], Failed(message, Some(MissingBrowserHint)))
  {
  }

  /** The world in which no call throws and the analysis returns `results`. */
  function Smooth(results: AxeResults): World {
    World(x => None, results)
  }

  /** A request naming only a URL, in a world where nothing throws: the defaults
      select chromium, headless, a 1280x720 viewport at scale 1, navigation until
      "load", a one-second settle wait and the "wcag2a" tag; the payload succeeds
      and has no summary text. */
  lemma DefaultRequestScenario(url: string, validUrl: string -> bool, results: AxeResults)
    requires validUrl(url)
    ensures Handle(OnlyUrl(url), validUrl, Smooth(results)) == Response(
      [ Launch(Chromium, true),
        NewContext(ContextOptions(1280, 720, 1.0, None)),
        NewPage,
        Goto(url, "load", None),
        WaitForTimeout(1000),
        Analyze([WithTags(["wcag2a"])]),
        CloseContext,
        CloseBrowser ],
      Succeeded(url, Summarize(results), results, None))
  {
    OnlyUrlDefaults(url, validUrl);
    var a := Parse(OnlyUrl(url), validUrl).value;
    assert Steps(a) == [WithTags(["wcag2a"])];
    assert Scan(a, Smooth(results)).result.Success?;
  }

  /** Choosing firefox without headless mode launches firefox with a visible window. */
  lemma FirefoxHeadedScenario(url: string, validUrl: string -> bool, results: AxeResults)
    requires validUrl(url)
    ensures Handle(OnlyUrl(url).(browser := Some("firefox"), headless := Some(false)),
                   validUrl, Smooth(results)).trace[0] == Launch(Firefox, false)
  {
  }
}
