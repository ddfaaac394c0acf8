/** The configuration of the accessibility rule engine, written as the ordered list
    of builder calls a request produces (src/index.ts:67-91). The engine itself is
    not modelled: each step is an uninterpreted call with its argument. */
module Builder {
  import opened Wrappers
  import opened Schema

  /** One call on the rule engine's builder. */
  datatype Step =
    | WithRules(rules: seq<string>)
    | WithTags(tags: seq<string>)
    | Disable(rules: seq<string>)
    | Include(selector: string)
    | Exclude(selector: string)
    | Legacy(enabled: bool)
    | Options(options: AxeOptions)

  /** The precedence of a step: steps of a lower rank are applied first. */
  function Rank(s: Step): nat {
    match s
    case WithRules(_) => 0
    case WithTags(_) => 0
    case Disable(_) => 1
    case Include(_) => 2
    case Exclude(_) => 3
    case Legacy(_) => 4
    case Options(_) => 5
  }

  /** An optional list that is present and non-empty (`list && list.length > 0`). */
  predicate Filled(list: Option<seq<string>>) {
    list.Some? && |list.value| > 0
  }

  /** Rule selection: an explicit rule list wins over tags; an empty one counts as absent. */
  function Selection(a: Args): seq<Step> {
    if Filled(a.runOnlyRules) then [WithRules(a.runOnlyRules.value)]
    else if |a.tags| > 0 then [WithTags(a.tags)]
    else []
  }

  function DisableStep(a: Args): seq<Step> {
    if Filled(a.disableRules) then [Disable(a.disableRules.value)] else []
  }

  /** One `Include` step per selector, in order. */
  function IncludeSteps(selectors: seq<string>): seq<Step> {
    seq(|selectors|, i requires 0 <= i < |selectors| => Include(selectors[i]))
  }

  /** One `Exclude` step per selector, in order. */
  function ExcludeSteps(selectors: seq<string>): seq<Step> {
    seq(|selectors|, i requires 0 <= i < |selectors| => Exclude(selectors[i]))
  }

  function LegacyStep(a: Args): seq<Step> {
    if a.legacyMode.Some? then [Legacy(a.legacyMode.value)] else []
  }

  function OptionsStep(a: Args): seq<Step> {
    if a.axeOptions.Some? then [Options(a.axeOptions.value)] else []
  }

  /** The builder calls a request makes, in the order it makes them. */
  function Steps(a: Args): seq<Step> {
    Selection(a) + DisableStep(a) + IncludeSteps(a.includeSelectors.GetOr([]))
    + ExcludeSteps(a.excludeSelectors.GetOr([])) + LegacyStep(a) + OptionsStep(a)
  }

  /** No builder call is ever followed by one of lower precedence. */
  lemma StepsRanked(a: Args)
    ensures forall i, j :: 0 <= i < j < |Steps(a)| ==> Rank(Steps(a)[i]) <= Rank(Steps(a)[j])
  {
    var steps := Steps(a);
    var inc := a.includeSelectors.GetOr([]);
    var exc := a.excludeSelectors.GetOr([]);
    assert forall i :: 0 <= i < |steps| ==>
      Rank(steps[i]) == (if i < |Selection(a)| then 0
                         else if i < |Selection(a)| + |DisableStep(a)| then 1
                         else if i < |Selection(a)| + |DisableStep(a)| + |inc| then 2
                         else if i < |Selection(a)| + |DisableStep(a)| + |inc| + |exc| then 3
                         else if i < |steps| - |OptionsStep(a)| then 4
                         else 5);
  }

  lemma IncludeStepsSnoc(selectors: seq<string>, i: nat)
    requires i < |selectors|
    ensures IncludeSteps(selectors[..i + 1]) == IncludeSteps(selectors[..i]) + [Include(selectors[i])]
  {
  }

  lemma ExcludeStepsSnoc(selectors: seq<string>, i: nat)
    requires i < |selectors|
    ensures ExcludeSteps(selectors[..i + 1]) == ExcludeSteps(selectors[..i]) + [Exclude(selectors[i])]
  {
  }

  /** Registers each include selector with its own call, in order. */
  method AppendIncludes(before: seq<Step>, selectors: seq<string>) returns (steps: seq<Step>)
    ensures steps == before + IncludeSteps(selectors)
  {
    steps := before;
    var i := 0;
    while i < |selectors|
      invariant 0 <= i <= |selectors|
      invariant steps == before + IncludeSteps(selectors[..i])
    {
      IncludeStepsSnoc(selectors, i);
      steps := steps + [Include(selectors[i])];
      i := i + 1;
    }
    assert selectors[..|selectors|] == selectors;
  }

  /** Registers each exclude selector with its own call, in order. */
  method AppendExcludes(before: seq<Step>, selectors: seq<string>) returns (steps: seq<Step>)
    ensures steps == before + ExcludeSteps(selectors)
  {
    steps := before;
    var i := 0;
    while i < |selectors|
      invariant 0 <= i <= |selectors|
      invariant steps == before + ExcludeSteps(selectors[..i])
    {
      ExcludeStepsSnoc(selectors, i);
      steps := steps + [Exclude(selectors[i])];
      i := i + 1;
    }
    assert selectors[..|selectors|] == selectors;
  }

  /** The builder as the handler drives it: start empty and append one call per
      applicable option, looping over the include and exclude selectors. */
  method Configure(a: Args) returns (steps: seq<Step>)
    ensures steps == Steps(a)
  {
    steps := [];
    if Filled(a.runOnlyRules) {
      steps := steps + [WithRules(a.runOnlyRules.value)];
    } else if |a.tags| > 0 {
      steps := steps + [WithTags(a.tags)];
    }
    assert steps == Selection(a);
    if Filled(a.disableRules) {
      steps := steps + [Disable(a.disableRules.value)];
    }
    assert steps == Selection(a) + DisableStep(a);
    if a.includeSelectors.Some? {
      steps := AppendIncludes(steps, a.includeSelectors.value);
    }
    if a.excludeSelectors.Some? {
      steps := AppendExcludes(steps, a.excludeSelectors.value);
    }
    assert steps == Selection(a) + DisableStep(a) + IncludeSteps(a.includeSelectors.GetOr([]))
                    + ExcludeSteps(a.excludeSelectors.GetOr([]));
    if a.legacyMode.Some? {
      steps := steps + [Legacy(a.legacyMode.value)];
    }
    if a.axeOptions.Some? {
      steps := steps + [Options(a.axeOptions.value)];
    }
  }

  /** The selectors registered by the scope steps of a list, in order: the include
      selectors when `includes` holds, the exclude selectors otherwise. */
  function Scope(steps: seq<Step>, includes: bool): seq<string> {
    if |steps| == 0 then []
    else
      var here := match steps[0]
        case Include(s) => if includes then [s] else []
        case Exclude(s) => if includes then [] else [s]
        case _ => [];
      here + Scope(steps[1..], includes)
  }

  lemma {:induction false} ScopeAppend(s: seq<Step>, t: seq<Step>, includes: bool)
    ensures Scope(s + t, includes) == Scope(s, includes) + Scope(t, includes)
  {
    if |s| == 0 {
      assert s + t == t;
    } else {
      assert (s + t)[1..] == s[1..] + t;
      ScopeAppend(s[1..], t, includes);
    }
  }

  lemma {:induction false} ScopeOfIncludes(selectors: seq<string>)
    ensures Scope(IncludeSteps(selectors), true) == selectors
    ensures Scope(IncludeSteps(selectors), false) == []
  {
    if |selectors| > 0 {
      assert IncludeSteps(selectors)[1..] == IncludeSteps(selectors[1..]);
      ScopeOfIncludes(selectors[1..]);
    }
  }

  lemma {:induction false} ScopeOfExcludes(selectors: seq<string>)
    ensures Scope(ExcludeSteps(selectors), true) == []
    ensures Scope(ExcludeSteps(selectors), false) == selectors
  {
    if |selectors| > 0 {
      assert ExcludeSteps(selectors)[1..] == ExcludeSteps(selectors[1..]);
      ScopeOfExcludes(selectors[1..]);
    }
  }

  /** Lists without scope steps register no selectors. */
  lemma ScopeOfUnscoped(s: seq<Step>, includes: bool)
    requires |s| <= 1
    requires forall i :: 0 <= i < |s| ==> !s[i].Include? && !s[i].Exclude?
    ensures Scope(s, includes) == []
  {
  }

  /** The selectors the whole list registers on one side are exactly the ones the
      request gave for that side. */
  lemma {:induction false} ScopeOfSteps(a: Args, includes: bool)
    ensures Scope(Steps(a), includes) ==
              if includes then a.includeSelectors.GetOr([]) else a.excludeSelectors.GetOr([])
  {
    var inc := IncludeSteps(a.includeSelectors.GetOr([]));
    var exc := ExcludeSteps(a.excludeSelectors.GetOr([]));
    var s1 := Selection(a) + DisableStep(a);
    var s2 := s1 + inc;
    var s3 := s2 + exc;
    var s4 := s3 + LegacyStep(a);
    assert Steps(a) == s4 + OptionsStep(a);
    ScopeOfUnscoped(Selection(a), includes);
    ScopeOfUnscoped(DisableStep(a), includes);
    ScopeOfUnscoped(LegacyStep(a), includes);
    ScopeOfUnscoped(OptionsStep(a), includes);
    ScopeOfIncludes(a.includeSelectors.GetOr([]));
    var own := if includes then a.includeSelectors.GetOr([]) else [];
    var other := if includes then [] else a.excludeSelectors.GetOr([]);
    assert Scope(s1, includes) == [] by {
      ScopeAppend(Selection(a), DisableStep(a), includes);
    }
    assert Scope(s2, includes) == own by {
      ScopeAppend(s1, inc, includes);
    }
    assert Scope(s3, includes) == own + other by {
      ScopeAppend(s2, exc, includes);
      ScopeOfExcludes(a.excludeSelectors.GetOr([]));
    }
    assert Scope(s4, includes) == own + other by {
      ScopeAppend(s3, LegacyStep(a), includes);
    }
    ScopeAppend(s4, OptionsStep(a), includes);
    assert own + other == if includes then a.includeSelectors.GetOr([]) else a.excludeSelectors.GetOr([]);
  }

  /** Each include selector is registered by its own step and in input order, and
      likewise each exclude selector; no other selector is registered; every include
      step comes before every exclude step. */
  lemma ScopeSteps(a: Args)
    ensures Scope(Steps(a), true) == a.includeSelectors.GetOr([])
    ensures Scope(Steps(a), false) == a.excludeSelectors.GetOr([])
    ensures forall i, j :: (0 <= i < |Steps(a)| && 0 <= j < |Steps(a)| &&
              Steps(a)[i].Include? && Steps(a)[j].Exclude?) ==> i < j
  {
    ScopeOfSteps(a, true);
    ScopeOfSteps(a, false);
    StepsRanked(a);
  }

  /** Rule selection: a non-empty rule list yields a `WithRules` step with that list
      and no `WithTags` step; otherwise non-empty tags yield a `WithTags` step with
      those tags; with both empty there is neither. At most one such step exists and
      it is the first step. */
  lemma RuleSelection(a: Args)
    ensures (exists i :: 0 <= i < |Steps(a)| && Steps(a)[i].WithRules?) <==> Filled(a.runOnlyRules)
    ensures (exists i :: 0 <= i < |Steps(a)| && Steps(a)[i].WithTags?) <==>
              !Filled(a.runOnlyRules) && |a.tags| > 0
    ensures forall i :: 0 <= i < |Steps(a)| && Steps(a)[i].WithRules? ==>
              i == 0 && Steps(a)[i].rules == a.runOnlyRules.value
    ensures forall i :: 0 <= i < |Steps(a)| && Steps(a)[i].WithTags? ==>
              i == 0 && Steps(a)[i].tags == a.tags
  {
    var s := Steps(a);
    StepsRanked(a);
    if Filled(a.runOnlyRules) {
      assert s[0].WithRules?;
    } else if |a.tags| > 0 {
      assert s[0].WithTags?;
    }
    forall i | 0 <= i < |s| && (s[i].WithRules? || s[i].WithTags?)
      ensures i == 0 && |Selection(a)| == 1
    {
      assert Rank(s[i]) == 0;
    }
  }

  /** A `Disable` step appears exactly when the deny-list is non-empty, carries that
      list, appears once, and comes after the rule-selection step. */
  lemma DisableAfterSelection(a: Args)
    ensures (exists i :: 0 <= i < |Steps(a)| && Steps(a)[i].Disable?) <==> Filled(a.disableRules)
    ensures forall i :: 0 <= i < |Steps(a)| && Steps(a)[i].Disable? ==>
              i == |Selection(a)| && Steps(a)[i].rules == a.disableRules.value
    ensures forall i, j :: (0 <= i < |Steps(a)| && 0 <= j < |Steps(a)| &&
              (Steps(a)[i].WithRules? || Steps(a)[i].WithTags?) && Steps(a)[j].Disable?) ==> i < j
  {
    var s := Steps(a);
    StepsRanked(a);
    var k := |Selection(a)|;
    if Filled(a.disableRules) {
      assert s[k].Disable?;
    }
    forall i | 0 <= i < |s| && s[i].Disable?
      ensures i == k && s[i] == Disable(a.disableRules.value)
    {
      assert Rank(s[i]) == 1;
    }
    RuleSelection(a);
  }

  /** A `Legacy(b)` step appears exactly when legacy mode was given as `b`. */
  lemma LegacyWhenGiven(a: Args, b: bool)
    ensures Legacy(b) in Steps(a) <==> a.legacyMode == Some(b)
  {
    var s := Steps(a);
    StepsRanked(a);
    if a.legacyMode == Some(b) {
      assert s[|s| - |OptionsStep(a)| - 1] == Legacy(b);
    }
    if Legacy(b) in s {
      var i :| 0 <= i < |s| && s[i] == Legacy(b);
      assert Rank(s[i]) == 4;
    }
  }

  /** An `Options` step appears exactly when engine options were given; it carries
      them and is the last step. */
  lemma OptionsLast(a: Args)
    ensures (exists i :: 0 <= i < |Steps(a)| && Steps(a)[i].Options?) <==> a.axeOptions.Some?
    ensures a.axeOptions.Some? ==> Steps(a)[|Steps(a)| - 1] == Options(a.axeOptions.value)
    ensures forall i :: 0 <= i < |Steps(a)| && Steps(a)[i].Options? ==> i == |Steps(a)| - 1
  {
    var s := Steps(a);
    StepsRanked(a);
    if a.axeOptions.Some? {
      assert s[|s| - 1].Options?;
    }
    forall i | 0 <= i < |s| && s[i].Options?
      ensures i == |s| - 1 && a.axeOptions.Some?
    {
      assert Rank(s[i]) == 5;
    }
  }

  /** The number of builder calls: one per applicable option plus one per selector. */
  lemma StepCount(a: Args)
    ensures |Steps(a)| ==
      (if Filled(a.runOnlyRules) || |a.tags| > 0 then 1 else 0)
      + (if Filled(a.disableRules) then 1 else 0)
      + |a.includeSelectors.GetOr([])| + |a.excludeSelectors.GetOr([])|
      + (if a.legacyMode.Some? then 1 else 0)
      + (if a.axeOptions.Some? then 1 else 0)
  {
  }
}
