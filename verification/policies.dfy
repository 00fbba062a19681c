/**
 * Security policies: their records, the applicability gate a file must pass
 * before a policy's rules are run on it, and the violations they report.
 */
module Policies {
  import opened Wrappers
  import opened Text
  import opened LineScan

  /** One rule of a policy, as a dictionary: the validator tag and the lists each
      validator reads (an absent list reads as empty). */
  datatype Rule = Rule(
    ruleType: Option<string>,
    patterns: seq<string>,
    functions: seq<string>,
    imports: seq<string>,
    maxComplexity: Option<int>,
    endpointPatterns: seq<string>)

  /** A policy entry as it appears in a configuration file or in the defaults,
      with the optional keys `SecurityPolicy.__init__` reads with a default. */
  datatype PolicyData = PolicyData(
    id: string,
    name: string,
    description: string,
    severity: Option<string>,
    enabled: Option<bool>,
    rules: Option<seq<Rule>>,
    fileTypes: Option<seq<string>>,
    excludedPaths: Option<seq<string>>)

  /** A loaded policy. `file_types` and `excluded_paths` come from its metadata. */
  datatype SecurityPolicy = SecurityPolicy(
    id: string,
    name: string,
    description: string,
    severity: string,
    enabled: bool,
    rules: seq<Rule>,
    fileTypes: seq<string>,
    excludedPaths: seq<string>)

  /** `SecurityPolicy(policy_data)`: severity defaults to "medium", enabled to
      true, every list to empty. */
  function FromData(d: PolicyData): (p: SecurityPolicy)
    ensures p.id == d.id && p.name == d.name && p.description == d.description
    ensures p.severity == (if d.severity.Some? then d.severity.value else "medium")
    ensures p.enabled <==> d.enabled != Some(false)
    ensures p.rules == (if d.rules.Some? then d.rules.value else [])
    ensures p.fileTypes == (if d.fileTypes.Some? then d.fileTypes.value else [])
    ensures p.excludedPaths == (if d.excludedPaths.Some? then d.excludedPaths.value else [])
  {
    SecurityPolicy(d.id, d.name, d.description, d.severity.GetOr("medium"), d.enabled.GetOr(true),
                   d.rules.GetOr([]), d.fileTypes.GetOr([]), d.excludedPaths.GetOr([]))
  }

  /** Some excluded-path regex matches the path (case-sensitive search). */
  predicate AnyExcluded(search: Search, excluded: seq<string>, path: string)
  {
    excluded != [] && (search(excluded[0], path, false) || AnyExcluded(search, excluded[1..], path))
  }

  lemma {:induction false} AnyExcludedSpec(search: Search, excluded: seq<string>, path: string)
    ensures AnyExcluded(search, excluded, path) <==> exists k :: 0 <= k < |excluded| && search(excluded[k], path, false)
  {
    if excluded != [] {
      AnyExcludedSpec(search, excluded[1..], path);
      if exists k :: 0 <= k < |excluded| && search(excluded[k], path, false) {
        var k :| 0 <= k < |excluded| && search(excluded[k], path, false);
        if k > 0 {
          assert excluded[1..][k - 1] == excluded[k];
        }
      }
    }
  }

  /** `is_applicable(file_path, context)`; the context is never consulted, so it
      is not a parameter. */
  predicate IsApplicable(search: Search, p: SecurityPolicy, path: string)
  {
    && p.enabled
    && (p.fileTypes != [] ==> Lower(PathSuffix(path)) in p.fileTypes)
    && !AnyExcluded(search, p.excludedPaths, path)
  }

  /** The gate in full: enabled, an allowed lower-cased suffix when an allow-list
      is given, and no excluded-path regex matching the path. */
  lemma IsApplicableSpec(search: Search, p: SecurityPolicy, path: string)
    ensures IsApplicable(search, p, path) <==>
              && p.enabled
              && (p.fileTypes != [] ==> Lower(PathSuffix(path)) in p.fileTypes)
              && (forall k :: 0 <= k < |p.excludedPaths| ==> !search(p.excludedPaths[k], path, false))
  {
    AnyExcludedSpec(search, p.excludedPaths, path);
  }

  /** A file whose name has no suffix never passes a policy with an allow-list:
      the empty suffix is compared, and an allow-list entry is only ever an
      extension such as ".py". */
  lemma NoSuffixNotApplicable(search: Search, p: SecurityPolicy, path: string)
    requires p.fileTypes != [] && "" !in p.fileTypes
    requires PathSuffix(path) == ""
    ensures !IsApplicable(search, p, path)
  {
  }

  /** The suffix is lower-cased before the test, so a file whose suffix is `.PY`
      (such as `app.PY`, by UpperSuffix) passes an allow-list holding ".py", while
      an allow-list entry written in capitals never matches. */
  lemma SuffixCaseFolded(search: Search, p: SecurityPolicy, path: string)
    requires p.enabled && p.fileTypes == [".py"] && p.excludedPaths == []
    requires PathSuffix(path) == ".PY"
    ensures IsApplicable(search, p, path)
    ensures !IsApplicable(search, p.(fileTypes := [".PY"]), path)
  {
    LowerDotPY();
  }

  lemma LowerDotPY()
    ensures Lower(".PY") == ".py"
  {
    var folded := Lower(".PY");
    assert folded[0] == '.' && folded[1] == 'p' && folded[2] == 'y';
  }

  lemma UpperSuffix()
    ensures PathSuffix("app.PY") == ".PY"
  {
    var name := "app.PY";
    SplitNoSeparator(name, '/');
    assert PathName(name) == name;
    assert RFind(name, '.') == 3 by {
      assert name[|name| - 1] == 'Y' && name[..|name| - 1] == "app.P";
      assert "app.P"[4] == 'P' && "app.P"[..4] == "app.";
      assert "app."[3] == '.';
    }
    assert name[3..] == ".PY";
  }

  /** The three list-driven line checks; each names the listed item it reports
      under its own key: `pattern_matched`, `function_name` or `import_name`. */
  datatype ItemKind = PatternMatch | FunctionCall | ImportRestriction

  /** What one validator reports about one line (or, for the complexity check,
      one function). Every kind carries a 1-based line number. */
  datatype Detail =
    | ItemHit(kind: ItemKind, lineNumber: nat, lineContent: string, item: string, description: string)
    | ComplexityHit(lineNumber: nat, functionName: string, complexity: nat, maxAllowed: int, description: string)
    | AuthMiss(lineNumber: nat, lineContent: string, description: string)

  /** A violation: the policy's fields, the file, the rule's tag, and the
      validator's own report. */
  datatype Violation = Violation(
    policyId: string,
    policyName: string,
    policyDescription: string,
    severity: string,
    filePath: string,
    violationType: string,
    detail: Detail)

  /** `_evaluate_policy` decorates each report with the policy and the rule. */
  function Decorate(p: SecurityPolicy, path: string, ruleType: string, d: Detail): (v: Violation)
    ensures v.policyId == p.id && v.policyName == p.name && v.policyDescription == p.description
    ensures v.severity == p.severity && v.filePath == path && v.violationType == ruleType
    ensures v.detail == d
  {
    Violation(p.id, p.name, p.description, p.severity, path, ruleType, d)
  }
}
