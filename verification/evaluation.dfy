/**
 * The validator registry of the policy engine (rule type tag to validator) and
 * `_evaluate_policy`, which runs a policy's rules in order through their
 * validators and decorates each report with the policy and the rule's tag.
 */
module Evaluation {
  import opened Wrappers
  import opened Text
  import opened LineScan
  import opened Policies
  import opened Validators
  import opened Complexity
  import opened AuthCheck

  /** The eight validators a rule's `type` can select. */
  datatype Validator =
    | ItemCheck(kind: ItemKind)
    | ComplexityLimit
    | AuthenticationRequired
    | InputValidation
    | SecureHeaders
    | CryptoStandards
  {
    /** The rule type under which the validator is registered. */
    function Tag(): string
    {
      match this
      case ItemCheck(PatternMatch) => "pattern_match"
      case ItemCheck(FunctionCall) => "function_call"
      case ItemCheck(ImportRestriction) => "import_restriction"
      case ComplexityLimit => "complexity_limit"
      case AuthenticationRequired => "authentication_required"
      case InputValidation => "input_validation"
      case SecureHeaders => "secure_headers"
      case CryptoStandards => "crypto_standards"
    }
  }

  /** `_register_default_validators`. */
  const PolicyValidators: map<string, Validator> := map[
    "pattern_match" := ItemCheck(PatternMatch),
    "function_call" := ItemCheck(FunctionCall),
    "import_restriction" := ItemCheck(ImportRestriction),
    "complexity_limit" := ComplexityLimit,
    "authentication_required" := AuthenticationRequired,
    "input_validation" := InputValidation,
    "secure_headers" := SecureHeaders,
    "crypto_standards" := CryptoStandards]

  /** The registry is a bijection between the eight tags and the eight
      validators: each validator is found under its own tag, and each tag leads
      to the validator of that tag. */
  lemma RegistryRoundTrip()
    ensures forall v: Validator :: v.Tag() in PolicyValidators && PolicyValidators[v.Tag()] == v
    ensures forall t :: t in PolicyValidators ==> PolicyValidators[t].Tag() == t
    ensures |PolicyValidators| == 8
  {
    forall v: Validator
      ensures v.Tag() in PolicyValidators && PolicyValidators[v.Tag()] == v
    {
      TagRegistered(v);
    }
    RegistrySize();
  }

  /** The registry holds eight entries: its eight tags are different strings. */
  lemma RegistrySize()
    ensures |PolicyValidators| == 8
  {
    assert "pattern_match"[0] != "function_call"[0];
    assert "complexity_limit"[0] != "input_validation"[0];
    assert "complexity_limit"[1] != "crypto_standards"[1];
    assert "input_validation"[0] != "crypto_standards"[0];
    var m0: map<string, Validator> := map[];
    var m1 := m0["pattern_match" := ItemCheck(PatternMatch)];
    var m2 := m1["function_call" := ItemCheck(FunctionCall)];
    var m3 := m2["import_restriction" := ItemCheck(ImportRestriction)];
    var m4 := m3["complexity_limit" := ComplexityLimit];
    var m5 := m4["authentication_required" := AuthenticationRequired];
    var m6 := m5["input_validation" := InputValidation];
    var m7 := m6["secure_headers" := SecureHeaders];
    var m8 := m7["crypto_standards" := CryptoStandards];
    assert |m1| == 1;
    assert |m2| == 2;
    assert |m3| == 3;
    assert |m4| == 4;
    assert |m5| == 5;
    assert |m6| == 6;
    assert |m7| == 7;
    assert |m8| == 8;
    assert m8 == PolicyValidators;
  }

  /** One validator is registered under its tag. */
  lemma TagRegistered(v: Validator)
    ensures v.Tag() in PolicyValidators && PolicyValidators[v.Tag()] == v
  {
    match v
    case ItemCheck(kind) => {
      match kind
      case PatternMatch => {}
      case FunctionCall => {}
      case ImportRestriction => {}
    }
    case _ => {}
  }

  /** `self.policy_validators.get(rule.get("type"))`: no validator for a missing
      or unknown type. */
  function ValidatorFor(ruleType: Option<string>): (v: Option<Validator>)
    ensures v.Some? ==> ruleType == Some(v.value.Tag())
    ensures v.None? ==> ruleType.None? || ruleType.value !in PolicyValidators
  {
    RegistryRoundTrip();
    if ruleType.Some? && ruleType.value in PolicyValidators then Some(PolicyValidators[ruleType.value]) else None
  }

  /** What a validator reports for a rule on a file's text. The last three are
      placeholders that report nothing. */
  function RuleDetails(search: Search, defName: DefMatch, v: Validator, rule: Rule, content: string): seq<Detail>
  {
    match v
    case ItemCheck(kind) => ItemChecks(search, kind, ItemsOf(kind, rule), Lines(content))
    case ComplexityLimit => ComplexityChecks(search, defName, rule.maxComplexity.GetOr(DefaultMaxComplexity), Lines(content))
    case AuthenticationRequired => AuthChecks(search, rule.endpointPatterns, Lines(content))
    case InputValidation => []
    case SecureHeaders => []
    case CryptoStandards => []
  }

  /** Calling the validator found in the registry; `_validate_input_validation`,
      `_validate_secure_headers` and `_validate_crypto_standards` return an
      empty list. */
  method RunValidator(search: Search, defName: DefMatch, v: Validator, rule: Rule, content: string)
    returns (details: seq<Detail>)
    ensures details == RuleDetails(search, defName, v, rule, content)
  {
    match v
    case ItemCheck(kind) =>
      details := ValidateItems(search, kind, rule, content);
    case ComplexityLimit =>
      details := ValidateComplexityLimit(search, defName, rule, content);
    case AuthenticationRequired =>
      details := ValidateAuthenticationRequired(search, rule, content);
    case InputValidation =>
      details := [];
    case SecureHeaders =>
      details := [];
    case CryptoStandards =>
      details := [];
  }

  /** Each report of a rule, decorated with the policy, the file and the tag. */
  function DecorateAll(p: SecurityPolicy, path: string, ruleType: string, ds: seq<Detail>): (vs: seq<Violation>)
    ensures |vs| == |ds|
    ensures forall i :: 0 <= i < |ds| ==> vs[i] == Decorate(p, path, ruleType, ds[i])
  {
    if ds == [] then []
    else DecorateAll(p, path, ruleType, ds[..|ds| - 1]) + [Decorate(p, path, ruleType, ds[|ds| - 1])]
  }

  /** What one rule contributes: nothing when its type has no validator. */
  function RuleViolations(search: Search, defName: DefMatch, p: SecurityPolicy, path: string, content: string, rule: Rule)
    : seq<Violation>
  {
    match ValidatorFor(rule.ruleType)
    case None => []
    case Some(v) => DecorateAll(p, path, rule.ruleType.value, RuleDetails(search, defName, v, rule, content))
  }

  /** What each rule of a policy contributes on a given file. */
  function Contribution(search: Search, defName: DefMatch, p: SecurityPolicy, path: string, content: string)
    : Rule -> seq<Violation>
  {
    (rule: Rule) => RuleViolations(search, defName, p, path, content, rule)
  }

  /** The violations of a list of rules, rule by rule in order. */
  function RulesViolations(contribution: Rule -> seq<Violation>, rules: seq<Rule>): seq<Violation>
  {
    if rules == [] then []
    else RulesViolations(contribution, rules[..|rules| - 1]) + contribution(rules[|rules| - 1])
  }

  /** The violations of a policy on a file. */
  function PolicyViolations(search: Search, defName: DefMatch, p: SecurityPolicy, path: string, content: string)
    : seq<Violation>
  {
    RulesViolations(Contribution(search, defName, p, path, content), p.rules)
  }

  lemma RulesViolationsStep(contribution: Rule -> seq<Violation>, rules: seq<Rule>, i: nat)
    requires i < |rules|
    ensures RulesViolations(contribution, rules[..i + 1]) == RulesViolations(contribution, rules[..i]) + contribution(rules[i])
  {
    assert rules[..i + 1][..i] == rules[..i];
  }

  /** The decorating loop for one rule. */
  method DecorateRule(p: SecurityPolicy, path: string, ruleType: string, ruleViolations: seq<Detail>)
    returns (violations: seq<Violation>)
    ensures violations == DecorateAll(p, path, ruleType, ruleViolations)
  {
    violations := [];
    var k := 0;
    while k < |ruleViolations|
      invariant 0 <= k <= |ruleViolations|
      invariant violations == DecorateAll(p, path, ruleType, ruleViolations[..k])
    {
      assert ruleViolations[..k + 1][..k] == ruleViolations[..k];
      violations := violations + [Decorate(p, path, ruleType, ruleViolations[k])];
      k := k + 1;
    }
    assert ruleViolations[..k] == ruleViolations;
  }

  /** One iteration of `_evaluate_policy`: look the rule's type up, run the
      validator if there is one, and decorate what it reports. */
  method EvaluateRule(search: Search, defName: DefMatch, policy: SecurityPolicy, filePath: string, fileContent: string,
                      rule: Rule)
    returns (violations: seq<Violation>)
    ensures violations == RuleViolations(search, defName, policy, filePath, fileContent, rule)
  {
    var ruleType := rule.ruleType;
    var validator := ValidatorFor(ruleType);
    if validator.Some? {
      var ruleViolations := RunValidator(search, defName, validator.value, rule, fileContent);
      violations := DecorateRule(policy, filePath, ruleType.value, ruleViolations);
    } else {
      violations := [];
    }
  }

  /** `_evaluate_policy`. */
  method EvaluatePolicy(search: Search, defName: DefMatch, policy: SecurityPolicy, filePath: string, fileContent: string)
    returns (violations: seq<Violation>)
    ensures violations == PolicyViolations(search, defName, policy, filePath, fileContent)
  {
    ghost var contribution := Contribution(search, defName, policy, filePath, fileContent);
    violations := [];
    var i := 0;
    while i < |policy.rules|
      invariant 0 <= i <= |policy.rules|
      invariant violations == RulesViolations(contribution, policy.rules[..i])
    {
      var ruleViolations := EvaluateRule(search, defName, policy, filePath, fileContent, policy.rules[i]);
      RulesViolationsStep(contribution, policy.rules, i);
      violations := violations + ruleViolations;
      i := i + 1;
    }
    assert policy.rules[..i] == policy.rules;
  }

  /** Rules contribute independently and in order. */
  lemma {:induction false} RulesViolationsConcat(contribution: Rule -> seq<Violation>, rules1: seq<Rule>, rules2: seq<Rule>)
    ensures RulesViolations(contribution, rules1 + rules2)
         == RulesViolations(contribution, rules1) + RulesViolations(contribution, rules2)
  {
    if rules2 == [] {
      assert rules1 + rules2 == rules1;
    } else {
      var last := |rules2| - 1;
      var all := rules1 + rules2;
      assert all[..|all| - 1] == rules1 + rules2[..last];
      assert all[|all| - 1] == rules2[last];
      RulesViolationsConcat(contribution, rules1, rules2[..last]);
    }
  }

  /** A rule whose type has no validator is skipped without effect, wherever it
      stands among the policy's rules. */
  lemma UnknownRuleIgnored(search: Search, defName: DefMatch, p: SecurityPolicy, path: string, content: string,
                           before: seq<Rule>, rule: Rule, after: seq<Rule>)
    requires rule.ruleType.None? || rule.ruleType.value !in PolicyValidators
    ensures var f := Contribution(search, defName, p, path, content);
            RulesViolations(f, before + [rule] + after) == RulesViolations(f, before + after)
  {
    var f := Contribution(search, defName, p, path, content);
    RulesViolationsConcat(f, before + [rule], after);
    RulesViolationsConcat(f, before, [rule]);
    RulesViolationsConcat(f, before, after);
    assert RulesViolations(f, [rule]) == [] by {
      assert [rule][..0] == [];
    }
  }

  /** Every violation of a policy carries the policy's id, name, description and
      severity and the file's path, and comes from one of the policy's rules
      whose type is a registered tag: it is one of that validator's reports. */
  lemma {:induction false} RulesViolationSound(search: Search, defName: DefMatch, p: SecurityPolicy, path: string,
                                               content: string, rules: seq<Rule>, x: Violation)
    returns (rule: Rule)
    requires x in RulesViolations(Contribution(search, defName, p, path, content), rules)
    ensures x.policyId == p.id && x.policyName == p.name && x.policyDescription == p.description
    ensures x.severity == p.severity && x.filePath == path
    ensures rule in rules && rule.ruleType == Some(x.violationType) && x.violationType in PolicyValidators
    ensures x.detail in RuleDetails(search, defName, PolicyValidators[x.violationType], rule, content)
  {
    var f := Contribution(search, defName, p, path, content);
    var last := |rules| - 1;
    if x in RulesViolations(f, rules[..last]) {
      rule := RulesViolationSound(search, defName, p, path, content, rules[..last], x);
    } else {
      rule := rules[last];
      assert x in RuleViolations(search, defName, p, path, content, rule);
      var v := ValidatorFor(rule.ruleType).value;
      var ds := RuleDetails(search, defName, v, rule, content);
      var vs := DecorateAll(p, path, rule.ruleType.value, ds);
      var k :| 0 <= k < |vs| && vs[k] == x;
      RegistryRoundTrip();
      assert x.detail == ds[k];
    }
  }

  /** The same for a whole policy. */
  lemma PolicyViolationSound(search: Search, defName: DefMatch, p: SecurityPolicy, path: string, content: string, x: Violation)
    returns (rule: Rule)
    requires x in PolicyViolations(search, defName, p, path, content)
    ensures x.policyId == p.id && x.policyName == p.name && x.policyDescription == p.description
    ensures x.severity == p.severity && x.filePath == path
    ensures rule in p.rules && rule.ruleType == Some(x.violationType) && x.violationType in PolicyValidators
    ensures x.detail in RuleDetails(search, defName, PolicyValidators[x.violationType], rule, content)
  {
    rule := RulesViolationSound(search, defName, p, path, content, p.rules, x);
  }
}
