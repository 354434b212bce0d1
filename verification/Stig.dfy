/** Compliance findings: which requirements are in scope, and what becomes of a violation.
    internal/provider/validators/stig_engine.go */
module Stig {
  import opened Text

  datatype Categorization = Categorization(confidentiality: string, integrity: string, availability: string)

  datatype Config = Config(
    enabled: bool, enforcement: string, suppressions: seq<string>, categorization: Categorization)

  datatype Requirement = Requirement(id: string, severity: string, title: string, controls: seq<string>)

  /** A check bound to a resource; C is the configuration, P and S the plan and the state. */
  datatype Binding<!C, !P, !S> = Binding(
    requirementID: string, implemented: bool,
    statelessFn: Option<C -> bool>, statefulFn: Option<(P, S) -> bool>)

  datatype Severity = Error | Warning

  /** A diagnostic by what it says, not by its text. */
  datatype Diagnostic = Diagnostic(severity: Severity, requirement: Requirement, suppressed: bool)

  // ---------------------------------------------------------------- scope

  function BaselineOrdinal(level: string): (n: nat)
    ensures n <= 3
  {
    match Lower(level)
    case "low" => 1
    case "moderate" => 2
    case "high" => 3
    case _ => 0
  }

  function Levels(c: Categorization): seq<string> {
    [c.confidentiality, c.integrity, c.availability]
  }

  function Max(a: nat, b: nat): nat {
    if a < b then b else a
  }

  /** The highest level of the three, never below low. */
  function EffectiveOrdinal(c: Categorization): nat {
    Max(1, Max(BaselineOrdinal(c.confidentiality), Max(BaselineOrdinal(c.integrity), BaselineOrdinal(c.availability))))
  }

  lemma LowerAgain(s: string)
    ensures Lower(Lower(s)) == Lower(s)
    ensures BaselineOrdinal(Lower(s)) == BaselineOrdinal(s)
  {
  }

  /** The three levels in their order, in any letter case; a text that is none of them is below all. */
  lemma LevelsInOrder(level: string)
    ensures BaselineOrdinal("low") < BaselineOrdinal("moderate") < BaselineOrdinal("high")
    ensures BaselineOrdinal(level) == BaselineOrdinal("low") <==> EqualFold(level, "low")
    ensures BaselineOrdinal(level) == BaselineOrdinal("moderate") <==> EqualFold(level, "moderate")
    ensures BaselineOrdinal(level) == BaselineOrdinal("high") <==> EqualFold(level, "high")
    ensures BaselineOrdinal(level) < BaselineOrdinal("low") <==>
      !EqualFold(level, "low") && !EqualFold(level, "moderate") && !EqualFold(level, "high")
  {
    assert Lower("low") == "low" && Lower("moderate") == "moderate" && Lower("high") == "high";
  }

  method EffectiveBaseline(c: Categorization) returns (maxLevel: string)
    ensures BaselineOrdinal(maxLevel) == EffectiveOrdinal(c)
    ensures maxLevel == "low" || maxLevel in [Lower(c.confidentiality), Lower(c.integrity), Lower(c.availability)]
  {
    var levels := Levels(c);
    var maxOrd := 0;
    maxLevel := "low";
    assert Lower("low") == "low";
    for i := 0 to |levels|
      invariant BaselineOrdinal(maxLevel) == Max(1, maxOrd)
      invariant forall j :: 0 <= j < i ==> BaselineOrdinal(levels[j]) <= maxOrd
      invariant maxOrd == 0 || exists j :: 0 <= j < i && BaselineOrdinal(levels[j]) == maxOrd
      invariant maxLevel == "low" || exists j :: 0 <= j < i && maxLevel == Lower(levels[j])
    {
      var ord := BaselineOrdinal(levels[i]);
      if ord > maxOrd {
        LowerAgain(levels[i]);
        maxOrd := ord;
        maxLevel := Lower(levels[i]);
      }
    }
    assert levels[0] == c.confidentiality && levels[1] == c.integrity && levels[2] == c.availability;
  }

  /** A control without a known baseline counts as in scope. */
  predicate InScope(baselines: map<string, string>, effective: nat, control: string) {
    control !in baselines || BaselineOrdinal(baselines[control]) <= effective
  }

  method ControlInScope(baselines: map<string, string>, c: Categorization, controlIDs: seq<string>) returns (r: bool)
    ensures r <==> exists i :: 0 <= i < |controlIDs| && InScope(baselines, EffectiveOrdinal(c), controlIDs[i])
  {
    var level := EffectiveBaseline(c);
    var effectiveOrd := BaselineOrdinal(level);
    for i := 0 to |controlIDs|
      invariant forall j :: 0 <= j < i ==> !InScope(baselines, effectiveOrd, controlIDs[j])
    {
      if controlIDs[i] !in baselines {
        assert InScope(baselines, effectiveOrd, controlIDs[i]);
        return true;
      }
      if BaselineOrdinal(baselines[controlIDs[i]]) <= effectiveOrd {
        assert InScope(baselines, effectiveOrd, controlIDs[i]);
        return true;
      }
    }
    return false;
  }

  /** A control is in scope exactly when its level is not known, or not above low, or not above one of the
      three levels. */
  lemma InScopeExactly(baselines: map<string, string>, c: Categorization, control: string)
    ensures InScope(baselines, EffectiveOrdinal(c), control) <==>
      || control !in baselines
      || BaselineOrdinal(baselines[control]) <= BaselineOrdinal("low")
      || exists level :: level in Levels(c) && BaselineOrdinal(baselines[control]) <= BaselineOrdinal(level)
  {
    var levels := Levels(c);
    assert levels[0] == c.confidentiality && levels[1] == c.integrity && levels[2] == c.availability;
    assert forall level :: level in levels ==> BaselineOrdinal(level) <= EffectiveOrdinal(c);
    LevelsInOrder("low");
    assert Lower("low") == "low";
  }

  predicate AnyInScope(baselines: map<string, string>, c: Categorization, controls: seq<string>) {
    exists i :: 0 <= i < |controls| && InScope(baselines, EffectiveOrdinal(c), controls[i])
  }

  // ---------------------------------------------------------------- findings

  /** What a violation of a requirement emits: nothing, or one diagnostic. */
  function Emitted(config: Config, req: Requirement): seq<Diagnostic> {
    if req.id in config.suppressions then [Diagnostic(Warning, req, true)]
    else if config.enforcement == "strict" then [Diagnostic(Error, req, false)]
    else if config.enforcement == "warn" then [Diagnostic(Warning, req, false)]
    else []
  }

  method EmitFinding(config: Config, req: Requirement, diags: seq<Diagnostic>) returns (r: seq<Diagnostic>)
    ensures r == diags + Emitted(config, req)
  {
    var suppressed := false;
    for i := 0 to |config.suppressions|
      invariant !suppressed && req.id !in config.suppressions[..i]
    {
      if config.suppressions[i] == req.id {
        suppressed := true;
        break;
      }
    }
    assert config.suppressions[..|config.suppressions|] == config.suppressions;
    if suppressed {
      return diags + [Diagnostic(Warning, req, true)];
    }
    match config.enforcement
    case "strict" => r := diags + [Diagnostic(Error, req, false)];
    case "warn" => r := diags + [Diagnostic(Warning, req, false)];
    case _ => r := diags;
  }

  /** The requirement a binding finds violated, if any; failed says which checks the resource fails. */
  function Violated<C, P, S>(
      requirements: map<string, Requirement>, baselines: map<string, string>, c: Categorization,
      binding: Binding<C, P, S>, failed: Binding<C, P, S> -> bool): Option<Requirement> {
    if binding.implemented && binding.requirementID in requirements
       && AnyInScope(baselines, c, requirements[binding.requirementID].controls) && failed(binding)
    then Some(requirements[binding.requirementID]) else None
  }

  function Findings<C, P, S>(
      requirements: map<string, Requirement>, baselines: map<string, string>, config: Config,
      bindings: seq<Binding<C, P, S>>, failed: Binding<C, P, S> -> bool): seq<Diagnostic> {
    if bindings == [] then []
    else
      var v := Violated(requirements, baselines, config.categorization, bindings[|bindings| - 1], failed);
      Findings(requirements, baselines, config, bindings[..|bindings| - 1], failed)
      + if v.Some? then Emitted(config, v.value) else []
  }

  function StatelessFailed<C, P, S>(config: C): Binding<C, P, S> -> bool {
    (b: Binding<C, P, S>) => b.statelessFn.Some? && !b.statelessFn.value(config)
  }

  function StatefulFailed<C, P, S>(plan: P, state: S): Binding<C, P, S> -> bool {
    (b: Binding<C, P, S>) => b.statefulFn.Some? && !b.statefulFn.value(plan, state)
  }

  class Engine<!C, !P, !S> {
    const config: Config
    const requirements: map<string, Requirement>
    const baselines: map<string, string>
    var bindings: map<string, seq<Binding<C, P, S>>>

    constructor (config: Config, requirements: map<string, Requirement>, baselines: map<string, string>)
      ensures this.config == config && this.requirements == requirements && this.baselines == baselines
      ensures bindings == map[]
    {
      this.config, this.requirements, this.baselines, this.bindings := config, requirements, baselines, map[];
    }

    method RegisterBindings(resource: string, bound: seq<Binding<C, P, S>>)
      modifies this`bindings
      ensures bindings == old(bindings)[resource := bound]
    {
      bindings := bindings[resource := bound];
    }

    method ValidateConfig(resource: string, accessor: C, diags: seq<Diagnostic>) returns (r: seq<Diagnostic>)
      ensures r == diags +
        if !config.enabled || resource !in bindings then []
        else Findings(requirements, baselines, config, bindings[resource], StatelessFailed(accessor))
    {
      r := diags;
      if !config.enabled || resource !in bindings {
        return;
      }
      var bound := bindings[resource];
      for i := 0 to |bound|
        invariant r == diags + Findings(requirements, baselines, config, bound[..i], StatelessFailed(accessor))
      {
        assert bound[..i + 1][..i] == bound[..i];
        var binding := bound[i];
        if !binding.implemented || binding.statelessFn.None? || binding.requirementID !in requirements {
          continue;
        }
        var req := requirements[binding.requirementID];
        var inScope := ControlInScope(baselines, config.categorization, req.controls);
        if !inScope {
          continue;
        }
        var compliant := binding.statelessFn.value(accessor);
        if !compliant {
          r := EmitFinding(config, req, r);
        }
      }
      assert bound[..|bound|] == bound;
    }

    method ValidatePlan(resource: string, plan: P, state: S, diags: seq<Diagnostic>) returns (r: seq<Diagnostic>)
      ensures r == diags +
        if !config.enabled || resource !in bindings then []
        else Findings(requirements, baselines, config, bindings[resource], StatefulFailed(plan, state))
    {
      r := diags;
      if !config.enabled || resource !in bindings {
        return;
      }
      var bound := bindings[resource];
      for i := 0 to |bound|
        invariant r == diags + Findings(requirements, baselines, config, bound[..i], StatefulFailed(plan, state))
      {
        assert bound[..i + 1][..i] == bound[..i];
        var binding := bound[i];
        if !binding.implemented || binding.statefulFn.None? || binding.requirementID !in requirements {
          continue;
        }
        var req := requirements[binding.requirementID];
        var inScope := ControlInScope(baselines, config.categorization, req.controls);
        if !inScope {
          continue;
        }
        var compliant := binding.statefulFn.value(plan, state);
        if !compliant {
          r := EmitFinding(config, req, r);
        }
      }
      assert bound[..|bound|] == bound;
    }
  }

  // ---------------------------------------------------------------- monotone scoping

  /** a can be had from b by leaving elements out. */
  predicate Subsequence<T(==)>(a: seq<T>, b: seq<T>) {
    if a == [] then true
    else if b == [] then false
    else
      var last := |b| - 1;
      (a[|a| - 1] == b[last] && Subsequence(a[..|a| - 1], b[..last])) || Subsequence(a, b[..last])
  }

  lemma {:induction false} SubsequenceOfMore<T>(a: seq<T>, b: seq<T>, more: seq<T>)
    requires Subsequence(a, b)
    ensures Subsequence(a, b + more)
  {
    if more == [] {
      assert b + more == b;
    } else {
      SubsequenceOfMore(a, b, more[..|more| - 1]);
      assert (b + more)[..|b + more| - 1] == b + more[..|more| - 1];
    }
  }

  lemma SubsequenceWithSame<T>(a: seq<T>, b: seq<T>, same: seq<T>)
    requires Subsequence(a, b) && |same| <= 1
    ensures Subsequence(a + same, b + same)
  {
    if same == [] {
      assert a + same == a && b + same == b;
    } else {
      assert (a + same)[..|a + same| - 1] == a && (b + same)[..|b + same| - 1] == b;
    }
  }

  /** No level of c is above the same level of d. */
  predicate NotAbove(c: Categorization, d: Categorization) {
    && BaselineOrdinal(c.confidentiality) <= BaselineOrdinal(d.confidentiality)
    && BaselineOrdinal(c.integrity) <= BaselineOrdinal(d.integrity)
    && BaselineOrdinal(c.availability) <= BaselineOrdinal(d.availability)
  }

  lemma ScopeGrows(baselines: map<string, string>, c: Categorization, d: Categorization, controls: seq<string>)
    requires NotAbove(c, d) && AnyInScope(baselines, c, controls)
    ensures AnyInScope(baselines, d, controls)
  {
    var i :| 0 <= i < |controls| && InScope(baselines, EffectiveOrdinal(c), controls[i]);
    assert EffectiveOrdinal(c) <= EffectiveOrdinal(d);
    assert InScope(baselines, EffectiveOrdinal(d), controls[i]);
  }

  /** Raising the categorization loses no finding and reorders none. */
  lemma {:induction false} RaisingAddsFindings<C, P, S>(
      requirements: map<string, Requirement>, baselines: map<string, string>, low: Config, high: Config,
      bindings: seq<Binding<C, P, S>>, failed: Binding<C, P, S> -> bool)
    requires NotAbove(low.categorization, high.categorization)
    requires high == low.(categorization := high.categorization)
    ensures Subsequence(Findings(requirements, baselines, low, bindings, failed),
                        Findings(requirements, baselines, high, bindings, failed))
  {
    if bindings != [] {
      var last, rest := bindings[|bindings| - 1], bindings[..|bindings| - 1];
      RaisingAddsFindings(requirements, baselines, low, high, rest, failed);
      var a := Findings(requirements, baselines, low, rest, failed);
      var b := Findings(requirements, baselines, high, rest, failed);
      var v := Violated(requirements, baselines, low.categorization, last, failed);
      var u := Violated(requirements, baselines, high.categorization, last, failed);
      if v.Some? {
        ScopeGrows(baselines, low.categorization, high.categorization, v.value.controls);
        assert u == v && Emitted(high, v.value) == Emitted(low, v.value);
        SubsequenceWithSame(a, b, Emitted(low, v.value));
      } else {
        assert a + [] == a;
        SubsequenceOfMore(a, b, if u.Some? then Emitted(high, u.value) else []);
      }
    }
  }

  // ---------------------------------------------------------------- enforcement

  function Softened(diags: seq<Diagnostic>): (r: seq<Diagnostic>)
    ensures |r| == |diags|
  {
    seq(|diags|, i requires 0 <= i < |diags| => diags[i].(severity := Warning))
  }

  function OnlySuppressed(diags: seq<Diagnostic>): seq<Diagnostic> {
    if diags == [] then []
    else OnlySuppressed(diags[..|diags| - 1]) + if diags[|diags| - 1].suppressed then [diags[|diags| - 1]] else []
  }

  lemma SoftenedConcat(a: seq<Diagnostic>, b: seq<Diagnostic>)
    ensures Softened(a + b) == Softened(a) + Softened(b)
  {
  }

  lemma OnlySuppressedAppend(a: seq<Diagnostic>, b: seq<Diagnostic>)
    requires |b| <= 1
    ensures OnlySuppressed(a + b) == OnlySuppressed(a) + if b != [] && b[0].suppressed then b else []
  {
    if b == [] {
      assert a + b == a;
    } else {
      assert (a + b)[..|a + b| - 1] == a;
    }
  }

  /** Warn mode emits what strict mode emits, in the same order, as warnings; any other mode emits
      the suppressed findings alone. */
  lemma {:induction false} ModesAgree<C, P, S>(
      requirements: map<string, Requirement>, baselines: map<string, string>, config: Config, silent: string,
      bindings: seq<Binding<C, P, S>>, failed: Binding<C, P, S> -> bool)
    requires silent != "strict" && silent != "warn"
    ensures var strict := Findings(requirements, baselines, config.(enforcement := "strict"), bindings, failed);
      && Findings(requirements, baselines, config.(enforcement := "warn"), bindings, failed) == Softened(strict)
      && Findings(requirements, baselines, config.(enforcement := silent), bindings, failed) == OnlySuppressed(strict)
  {
    if bindings != [] {
      var last, rest := bindings[|bindings| - 1], bindings[..|bindings| - 1];
      ModesAgree(requirements, baselines, config, silent, rest, failed);
      var strict := Findings(requirements, baselines, config.(enforcement := "strict"), rest, failed);
      var v := Violated(requirements, baselines, config.categorization, last, failed);
      var more := if v.Some? then Emitted(config.(enforcement := "strict"), v.value) else [];
      SoftenedConcat(strict, more);
      OnlySuppressedAppend(strict, more);
    }
  }

  /** Exactly the violated requirements of implemented, known, in-scope bindings are reported: an
      unsuppressed one as an error under strict enforcement and never else, a suppressed one as a
      warning whatever the enforcement. */
  lemma {:induction false} FindingsAreTheViolations<C, P, S>(
      requirements: map<string, Requirement>, baselines: map<string, string>, config: Config,
      bindings: seq<Binding<C, P, S>>, failed: Binding<C, P, S> -> bool, d: Diagnostic)
    ensures d in Findings(requirements, baselines, config, bindings, failed) <==>
      && (exists i :: 0 <= i < |bindings| &&
            Violated(requirements, baselines, config.categorization, bindings[i], failed) == Some(d.requirement))
      && d.suppressed == (d.requirement.id in config.suppressions)
      && (if d.suppressed then d.severity.Warning?
          else if d.severity.Error? then config.enforcement == "strict" else config.enforcement == "warn")
  {
    if bindings != [] {
      var last, rest := bindings[|bindings| - 1], bindings[..|bindings| - 1];
      FindingsAreTheViolations(requirements, baselines, config, rest, failed, d);
      assert forall i :: 0 <= i < |rest| ==> rest[i] == bindings[i];
      var v := Violated(requirements, baselines, config.categorization, last, failed);
      EmittedIs(config, d.requirement, d);
      if v.Some? {
        EmittedIs(config, v.value, d);
      }
    }
  }

  lemma EmittedIs(config: Config, req: Requirement, d: Diagnostic)
    ensures d in Emitted(config, req) <==>
      && d.requirement == req && d.suppressed == (req.id in config.suppressions)
      && (if d.suppressed then d.severity.Warning?
          else if d.severity.Error? then config.enforcement == "strict" else config.enforcement == "warn")
  {
  }

  /** A binding that is implemented, for a requirement that is known and in scope. */
  predicate Checked<C, P, S>(requirements: map<string, Requirement>, baselines: map<string, string>,
        c: Categorization, binding: Binding<C, P, S>) {
    && binding.implemented && binding.requirementID in requirements
    && exists i :: 0 <= i < |requirements[binding.requirementID].controls| &&
         InScope(baselines, EffectiveOrdinal(c), requirements[binding.requirementID].controls[i])
  }

  /** Validating a configuration reports exactly the requirements whose stateless check there is and fails
      on it; validating a plan, those whose stateful check does on plan and state. */
  lemma ValidationReports<C, P, S>(
      requirements: map<string, Requirement>, baselines: map<string, string>, config: Config,
      bindings: seq<Binding<C, P, S>>, accessor: C, plan: P, state: S, req: Requirement, d: Diagnostic)
    requires d in Emitted(config, req) && d.requirement == req
    ensures d in Findings(requirements, baselines, config, bindings, StatelessFailed(accessor)) <==>
      exists i :: 0 <= i < |bindings| && Checked(requirements, baselines, config.categorization, bindings[i])
        && requirements[bindings[i].requirementID] == req
        && bindings[i].statelessFn.Some? && !bindings[i].statelessFn.value(accessor)
    ensures d in Findings(requirements, baselines, config, bindings, StatefulFailed(plan, state)) <==>
      exists i :: 0 <= i < |bindings| && Checked(requirements, baselines, config.categorization, bindings[i])
        && requirements[bindings[i].requirementID] == req
        && bindings[i].statefulFn.Some? && !bindings[i].statefulFn.value(plan, state)
  {
    EmittedIs(config, req, d);
    FindingsAreTheViolations(requirements, baselines, config, bindings, StatelessFailed(accessor), d);
    FindingsAreTheViolations(requirements, baselines, config, bindings, StatefulFailed(plan, state), d);
  }
}
