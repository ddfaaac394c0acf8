/** One scan as the sequence of external actions it performs (src/index.ts:41-104):
    launch the engine, create a browsing context, then, inside a try block, open a
    page, navigate, wait, and analyze; the `finally` block closes the context and
    then the browser.

    The browser and the rule engine are not modelled. A `World` says, for each
    action, whether it throws and what it throws, and which findings the analysis
    returns. */
module Orchestrator {
  import opened Wrappers
  import opened Schema
  import opened Browser
  import opened Builder

  /** An external call made during a scan, with the arguments it is made with. */
  datatype Action =
    | Launch(engine: Engine, headless: bool)
    | NewContext(options: ContextOptions)
    | NewPage
    | Goto(url: string, waitUntil: string, timeout: Option<int>)
    | WaitForSelector(selector: string, timeout: Option<int>)
    | WaitForTimeout(ms: int)
    | Analyze(config: seq<Step>)
    | CloseContext
    | CloseBrowser

  /** Where an action sits in the fixed order of a scan. */
  function Phase(x: Action): nat {
    match x
    case Launch(_, _) => 0
    case NewContext(_) => 1
    case NewPage => 2
    case Goto(_, _, _) => 3
    case WaitForSelector(_, _) => 4
    case WaitForTimeout(_) => 5
    case Analyze(_) => 6
    case CloseContext => 7
    case CloseBrowser => 8
  }

  /** The actions of the `finally` block. */
  predicate IsCleanup(x: Action) {
    x.CloseContext? || x.CloseBrowser?
  }

  /** Each action comes strictly later in the fixed order than the one before it. */
  predicate Ordered(s: seq<Action>) {
    forall i, j :: 0 <= i < j < |s| ==> Phase(s[i]) < Phase(s[j])
  }

  predicate PhasesWithin(s: seq<Action>, lo: nat, hi: nat) {
    forall i :: 0 <= i < |s| ==> lo <= Phase(s[i]) <= hi
  }

  /** A value thrown by an external call: an `Error` with its message, or any
      other value together with its `String(...)` text. */
  datatype Thrown = ErrorValue(message: string) | OtherValue(text: string)

  /** One rule's outcome as the rule engine reports it; passed through unexamined. */
  datatype Finding = Finding(ruleId: string)

  /** The four lists an analysis returns. */
  datatype AxeResults = AxeResults(
    violations: seq<Finding>,
    passes: seq<Finding>,
    incomplete: seq<Finding>,
    inapplicable: seq<Finding>)

  datatype Summary = Summary(violations: nat, passes: nat, incomplete: nat, inapplicable: nat)

  datatype ScanResult = ScanResult(analysis: AxeResults, summary: Summary)

  /** The behaviour of everything outside the scanner: which calls throw, and
      what a successful analysis returns. */
  datatype World = World(outcome: Action -> Option<Thrown>, results: AxeResults)

  /** A string option is truthy when present and non-empty. */
  predicate Truthy(s: Option<string>) {
    s.Some? && |s.value| > 0
  }

  /** The summary counts of an analysis. */
  function Summarize(r: AxeResults): Summary {
    Summary(|r.violations|, |r.passes|, |r.incomplete|, |r.inapplicable|)
  }

  /** Launching the engine and creating the context, before the `try`. */
  function Opening(a: Args): seq<Action> {
    [Launch(Launcher(a.browser), a.headless), NewContext(ResolveViewport(a.viewport))]
  }

  function SelectorWait(a: Args): seq<Action> {
    if Truthy(a.waitForSelector) then [WaitForSelector(a.waitForSelector.value, a.navigationTimeoutMs)]
    else []
  }

  function SettleWait(a: Args): seq<Action> {
    if a.postNavigationWaitMs > 0 then [WaitForTimeout(a.postNavigationWaitMs)] else []
  }

  /** The page actions of the `try` block, in the order they are attempted. */
  function PageActions(a: Args): seq<Action> {
    [NewPage, Goto(a.url, ResolveWaitUntil(a.waitUntil), a.navigationTimeoutMs)]
    + SelectorWait(a) + SettleWait(a) + [Analyze(Steps(a))]
  }

  /** The `finally` block. */
  const Cleanup: seq<Action> := [CloseContext, CloseBrowser]

  /** Every action of a scan in which nothing throws. */
  function Plan(a: Args): seq<Action> {
    Opening(a) + PageActions(a) + Cleanup
  }

  /** The actions attempted and the value thrown, if any. */
  datatype Run = Run(trace: seq<Action>, failure: Option<Thrown>)

  /** Awaits the given calls one after another until one throws. The attempted calls
      are a prefix of the given ones; they all succeed except perhaps the last, which
      threw exactly when the run failed. */
  function Attempt(steps: seq<Action>, w: World): (r: Run)
    ensures |r.trace| <= |steps| && r.trace == steps[..|r.trace|]
    ensures r.failure.None? ==> r.trace == steps
    ensures r.failure.Some? ==> |r.trace| > 0 && w.outcome(r.trace[|r.trace| - 1]) == r.failure
    ensures forall i :: 0 <= i < |r.trace| - 1 ==> w.outcome(r.trace[i]).None?
    ensures r.failure.None? <==> forall i :: 0 <= i < |steps| ==> w.outcome(steps[i]).None?
  {
    if |steps| == 0 then Run([], None)
    else match w.outcome(steps[0])
      case Some(e) => Run([steps[0]], Some(e))
      case None =>
        var rest := Attempt(steps[1..], w);
        Run([steps[0]] + rest.trace, rest.failure)
  }

  /** What a scan did and what it produced. */
  datatype ScanOutcome = ScanOutcome(trace: seq<Action>, result: Result<ScanResult, Thrown>)

  /** `analyzeAccessibility`. A failure while opening propagates at once; once the
      context exists the page actions run until one throws, then the context and
      the browser are closed, and a throw during closing replaces the earlier one. */
  function Scan(a: Args, w: World): (o: ScanOutcome)
    ensures |o.trace| > 0 && o.trace[0] == Launch(Launcher(a.browser), a.headless)
    ensures o.result.Success? <==> forall i :: 0 <= i < |Plan(a)| ==> w.outcome(Plan(a)[i]).None?
    ensures o.result.Success? ==> o.trace == Plan(a) && o.result.value.analysis == w.results
    ensures o.result.Success? ==>
              && o.result.value.summary.violations == |o.result.value.analysis.violations|
              && o.result.value.summary.passes == |o.result.value.analysis.passes|
              && o.result.value.summary.incomplete == |o.result.value.analysis.incomplete|
              && o.result.value.summary.inapplicable == |o.result.value.analysis.inapplicable|
    ensures o.result.Failure? ==>
              exists i :: 0 <= i < |o.trace| && w.outcome(o.trace[i]) == Some(o.result.error)
  {
    var opening := Attempt(Opening(a), w);
    if opening.failure.Some? then
      assert Plan(a)[|opening.trace| - 1] == opening.trace[|opening.trace| - 1];
      ScanOutcome(opening.trace, Failure(opening.failure.value))
    else
      var body := Attempt(PageActions(a), w);
      var cleanup := Attempt(Cleanup, w);
      var trace := Opening(a) + body.trace + cleanup.trace;
      AllSucceed(a, w);
      if cleanup.failure.Some? then
        assert trace[|trace| - 1] == cleanup.trace[|cleanup.trace| - 1];
        ScanOutcome(trace, Failure(cleanup.failure.value))
      else if body.failure.Some? then
        assert trace[|Opening(a)| + |body.trace| - 1] == body.trace[|body.trace| - 1];
        ScanOutcome(trace, Failure(body.failure.value))
      else
        ScanOutcome(trace, Success(ScanResult(w.results, Summarize(w.results))))
  }

  /** On every path the calls follow the fixed order of a scan, each at most once,
      and every call made is one of the plan's. */
  lemma ScanOrdered(a: Args, w: World)
    ensures Ordered(Scan(a, w).trace)
    ensures forall i :: 0 <= i < |Scan(a, w).trace| ==> Scan(a, w).trace[i] in Plan(a)
  {
    ScanShape(a, w);
    var opening := Attempt(Opening(a), w);
    if opening.failure.None? {
      var body := Attempt(PageActions(a), w);
      var cleanup := Attempt(Cleanup, w);
      OrderedTrace(a, body.trace, cleanup.trace);
      PrefixesInPlan(a, body.trace, cleanup.trace);
    } else {
      assert Ordered(Opening(a));
      PrefixOrdered(Opening(a), |opening.trace|, 0, 1);
      forall i | 0 <= i < |opening.trace|
        ensures opening.trace[i] in Plan(a)
      {
        assert opening.trace[i] == Plan(a)[i];
      }
    }
  }

  lemma PageActionsPhases(a: Args)
    ensures Ordered(PageActions(a))
    ensures PhasesWithin(PageActions(a), 2, 6)
  {
  }

  lemma {:induction false} OrderedConcat(s: seq<Action>, t: seq<Action>, lo: nat, mid: nat, hi: nat)
    requires lo <= mid < hi
    requires Ordered(s) && PhasesWithin(s, lo, mid)
    requires Ordered(t) && PhasesWithin(t, mid + 1, hi)
    ensures Ordered(s + t) && PhasesWithin(s + t, lo, hi)
  {
    var u := s + t;
    forall i, j | 0 <= i < j < |u|
      ensures Phase(u[i]) < Phase(u[j])
    {
      if j < |s| {
        assert u[i] == s[i] && u[j] == s[j];
      } else if i >= |s| {
        assert u[i] == t[i - |s|] && u[j] == t[j - |s|];
      } else {
        assert u[i] == s[i] && u[j] == t[j - |s|];
      }
    }
    forall i | 0 <= i < |u|
      ensures lo <= Phase(u[i]) <= hi
    {
      if i < |s| {
        assert u[i] == s[i];
      } else {
        assert u[i] == t[i - |s|];
      }
    }
  }

  lemma PrefixOrdered(s: seq<Action>, n: nat, lo: nat, hi: nat)
    requires n <= |s|
    requires Ordered(s) && PhasesWithin(s, lo, hi)
    ensures Ordered(s[..n]) && PhasesWithin(s[..n], lo, hi)
  {
  }

  /** Opening, a prefix of the page actions and a prefix of the cleanup, in that
      order, respect the fixed order of a scan. */
  lemma OrderedTrace(a: Args, body: seq<Action>, cleanup: seq<Action>)
    requires |body| <= |PageActions(a)| && body == PageActions(a)[..|body|]
    requires |cleanup| <= |Cleanup| && cleanup == Cleanup[..|cleanup|]
    ensures Ordered(Opening(a) + body + cleanup)
  {
    PageActionsPhases(a);
    PrefixOrdered(PageActions(a), |body|, 2, 6);
    PrefixOrdered(Cleanup, |cleanup|, 7, 8);
    OrderedConcat(Opening(a), body, 0, 1, 6);
    OrderedConcat(Opening(a) + body, cleanup, 0, 6, 8);
  }

  lemma PrefixesInPlan(a: Args, body: seq<Action>, cleanup: seq<Action>)
    requires |body| <= |PageActions(a)| && body == PageActions(a)[..|body|]
    requires |cleanup| <= |Cleanup| && cleanup == Cleanup[..|cleanup|]
    ensures forall i :: 0 <= i < |Opening(a) + body + cleanup| ==>
              (Opening(a) + body + cleanup)[i] in Plan(a)
  {
    var trace := Opening(a) + body + cleanup;
    forall i | 0 <= i < |trace|
      ensures trace[i] in Plan(a)
    {
      if i < |Opening(a)| {
        assert trace[i] == Plan(a)[i];
      } else if i < |Opening(a)| + |body| {
        assert trace[i] == PageActions(a)[i - |Opening(a)|];
        assert trace[i] == Plan(a)[i];
      } else {
        assert trace[i] == Cleanup[i - |Opening(a)| - |body|];
        assert trace[i] == Plan(a)[i - |body| + |PageActions(a)|];
      }
    }
  }

  /** A scan succeeds only when no action of its plan throws. */
  lemma AllSucceed(a: Args, w: World)
    requires Attempt(Opening(a), w).failure.None?
    ensures (forall i :: 0 <= i < |Plan(a)| ==> w.outcome(Plan(a)[i]).None?) <==>
              (Attempt(PageActions(a), w).failure.None? && Attempt(Cleanup, w).failure.None?)
  {
    var p := Plan(a);
    var k := |Opening(a)|;
    var m := |PageActions(a)|;
    assert forall i :: 0 <= i < k ==> p[i] == Opening(a)[i];
    assert forall i :: 0 <= i < m ==> p[k + i] == PageActions(a)[i];
    assert forall i :: 0 <= i < |Cleanup| ==> p[k + m + i] == Cleanup[i];
    if Attempt(PageActions(a), w).failure.None? && Attempt(Cleanup, w).failure.None? {
      forall i | 0 <= i < |p|
        ensures w.outcome(p[i]).None?
      {
        if i < k {
        } else if i < k + m {
          assert p[i] == PageActions(a)[i - k];
        } else {
          assert p[i] == Cleanup[i - k - m];
        }
      }
    }
  }

  /** The page actions start by opening a page and navigating with the resolved
      wait condition and the timeout; the selector wait is attempted exactly when a
      non-empty selector was given, the fixed wait exactly when its duration is
      positive; analysis, with the request's builder steps, comes after every wait. */
  lemma PageActionPlan(a: Args)
    ensures PageActions(a)[0] == NewPage
    ensures PageActions(a)[1] == Goto(a.url, ResolveWaitUntil(a.waitUntil), a.navigationTimeoutMs)
    ensures PageActions(a)[|PageActions(a)| - 1] == Analyze(Steps(a))
    ensures (exists i :: 0 <= i < |PageActions(a)| && PageActions(a)[i].WaitForSelector?)
              <==> Truthy(a.waitForSelector)
    ensures forall i :: 0 <= i < |PageActions(a)| && PageActions(a)[i].WaitForSelector? ==>
              PageActions(a)[i] == WaitForSelector(a.waitForSelector.value, a.navigationTimeoutMs)
    ensures (exists i :: 0 <= i < |PageActions(a)| && PageActions(a)[i].WaitForTimeout?)
              <==> a.postNavigationWaitMs > 0
    ensures forall i :: 0 <= i < |PageActions(a)| && PageActions(a)[i].WaitForTimeout? ==>
              PageActions(a)[i] == WaitForTimeout(a.postNavigationWaitMs)
    ensures Ordered(PageActions(a))
  {
    var p := PageActions(a);
    if Truthy(a.waitForSelector) {
      assert p[2].WaitForSelector?;
    }
    if a.postNavigationWaitMs > 0 {
      assert p[2 + |SelectorWait(a)|].WaitForTimeout?;
    }
  }

  /** Once the context has been created, the context is always closed: when closing
      it succeeds the scan ends by closing the context and then the browser; when
      closing it throws, that throw is the scan's error, whatever happened before.
      Likewise a throw from closing the browser replaces any earlier error, and when
      both closes succeed the error of the page actions, if any, is kept.
      When launching or creating the context throws, nothing is closed. */
  lemma ScanCleanup(a: Args, w: World)
    ensures var o := Scan(a, w);
      Attempt(Opening(a), w).failure.None? ==>
        && CloseContext in o.trace
        && (w.outcome(CloseContext).None? ==>
              |o.trace| >= 2 && o.trace[|o.trace| - 2..] == [CloseContext, CloseBrowser])
        && (w.outcome(CloseContext).Some? ==>
              o.trace[|o.trace| - 1] == CloseContext && o.result == Failure(w.outcome(CloseContext).value))
    ensures var o := Scan(a, w);
      Attempt(Opening(a), w).failure.None? && w.outcome(CloseContext).None? &&
      w.outcome(CloseBrowser).Some? ==>
        o.result == Failure(w.outcome(CloseBrowser).value)
    ensures var o := Scan(a, w);
      Attempt(Opening(a), w).failure.None? && w.outcome(CloseContext).None? &&
      w.outcome(CloseBrowser).None? && Attempt(PageActions(a), w).failure.Some? ==>
        o.result == Failure(Attempt(PageActions(a), w).failure.value)
    ensures var o := Scan(a, w);
      Attempt(Opening(a), w).failure.Some? ==>
        && CloseContext !in o.trace
        && CloseBrowser !in o.trace
        && o.result.Failure?
  {
    var o := Scan(a, w);
    var opening := Attempt(Opening(a), w);
    if opening.failure.None? {
      var body := Attempt(PageActions(a), w);
      var cleanup := Attempt(Cleanup, w);
      assert o.trace == Opening(a) + body.trace + cleanup.trace;
      assert cleanup.trace[0] == CloseContext;
      assert o.trace[|Opening(a)| + |body.trace|] == CloseContext;
      if w.outcome(CloseContext).None? {
        assert cleanup.trace == Cleanup;
        assert o.trace[|o.trace| - 2..] == cleanup.trace;
        assert cleanup.trace[1] == CloseBrowser;
        assert cleanup.failure == w.outcome(CloseBrowser);
      }
    }
  }

  /** After an action throws only cleanup follows, and after a cleanup action throws
      nothing follows. */
  predicate StopsAtFailure(trace: seq<Action>, w: World) {
    forall i, j :: 0 <= i < j < |trace| && w.outcome(trace[i]).Some? ==>
      IsCleanup(trace[j]) && !IsCleanup(trace[i])
  }

  lemma StopsAtFailureConcat(pre: seq<Action>, body: seq<Action>, cleanup: seq<Action>, w: World)
    requires forall i :: 0 <= i < |pre| ==> w.outcome(pre[i]).None? && !IsCleanup(pre[i])
    requires forall i :: 0 <= i < |body| ==> !IsCleanup(body[i])
    requires forall i :: 0 <= i < |body| - 1 ==> w.outcome(body[i]).None?
    requires forall i :: 0 <= i < |cleanup| ==> IsCleanup(cleanup[i])
    requires forall i :: 0 <= i < |cleanup| - 1 ==> w.outcome(cleanup[i]).None?
    ensures StopsAtFailure(pre + body + cleanup, w)
  {
    var t := pre + body + cleanup;
    var k := |pre|;
    var m := |body|;
    forall i, j | 0 <= i < j < |t| && w.outcome(t[i]).Some?
      ensures IsCleanup(t[j]) && !IsCleanup(t[i])
    {
      if k <= i < k + m {
        assert t[i] == body[i - k];
        assert t[j] == cleanup[j - k - m];
      }
    }
  }

  lemma PageActionsNotCleanup(a: Args, body: seq<Action>)
    requires |body| <= |PageActions(a)| && body == PageActions(a)[..|body|]
    ensures forall i :: 0 <= i < |body| ==> !IsCleanup(body[i])
  {
    PageActionsPhases(a);
    forall i | 0 <= i < |body|
      ensures !IsCleanup(body[i])
    {
      assert body[i] == PageActions(a)[i];
      assert Phase(body[i]) <= 6;
    }
  }

  /** How the trace of a scan is put together from its three parts. */
  lemma ScanShape(a: Args, w: World)
    ensures Attempt(Opening(a), w).failure.Some? ==>
              Scan(a, w).trace == Attempt(Opening(a), w).trace
    ensures Attempt(Opening(a), w).failure.None? ==>
              Scan(a, w).trace == Opening(a) + Attempt(PageActions(a), w).trace + Attempt(Cleanup, w).trace
  {
  }

  lemma ScanStopsAtFailure(a: Args, w: World)
    ensures StopsAtFailure(Scan(a, w).trace, w)
  {
    ScanShape(a, w);
    var opening := Attempt(Opening(a), w);
    if opening.failure.None? {
      var body := Attempt(PageActions(a), w);
      var cleanup := Attempt(Cleanup, w);
      PageActionsNotCleanup(a, body.trace);
      assert forall i :: 0 <= i < |cleanup.trace| ==> IsCleanup(cleanup.trace[i]) by {
        assert forall i :: 0 <= i < |cleanup.trace| ==> cleanup.trace[i] == Cleanup[i];
      }
      assert forall i :: 0 <= i < |Opening(a)| ==> w.outcome(Opening(a)[i]).None?;
      StopsAtFailureConcat(Opening(a), body.trace, cleanup.trace, w);
    } else {
      assert opening.trace == [] + opening.trace + [];
      assert forall i :: 0 <= i < |opening.trace| ==> !IsCleanup(opening.trace[i]) by {
        assert forall i :: 0 <= i < |opening.trace| ==> opening.trace[i] == Opening(a)[i];
      }
      StopsAtFailureConcat([], opening.trace, [], w);
    }
  }
}
