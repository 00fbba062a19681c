/**
 * `_calculate_security_metrics` and `RiskCalculator.calculate_risk_score`:
 * findings and policy violations folded into a 0..100 score and a risk label,
 * and a per-finding risk weight.
 *
 * Python reads the fields of a finding with `dict.get` and a default, so the
 * fields are optional here; the detector's own findings always carry all three
 * (FieldsOf). Scores are exact reals: Python's float rounding is not modelled.
 */
module Scoring {
  import opened Wrappers
  import opened Text
  import opened Findings

  /** The fields of a finding that scoring reads, each possibly absent. */
  datatype FindingFields = FindingFields(severity: Option<string>, confidence: Option<real>, filePath: Option<string>)

  /** A detector finding seen as a dictionary: every field is present. */
  function FieldsOf(v: Vulnerability): FindingFields
  {
    FindingFields(Some(v.severity), Some(v.confidence), Some(v.filePath))
  }

  /** `vuln.get("confidence", 0.5)`. */
  function ConfidenceOf(f: FindingFields): real
  {
    f.confidence.GetOr(0.5)
  }

  // ---------------------------------------------------------------------------
  // The security score
  // ---------------------------------------------------------------------------

  /** `severity_weights.get(vuln.get("severity", "low"), 3)`. */
  function SeverityWeight(severity: Option<string>): (w: real)
    ensures w == 25.0 <==> severity == Some("critical")
    ensures w == 15.0 <==> severity == Some("high")
    ensures w == 8.0 <==> severity == Some("medium")
    ensures w == 3.0 <==> !(severity in {Some("critical"), Some("high"), Some("medium")})
  {
    match severity.GetOr("low")
    case "critical" => 25.0
    case "high" => 15.0
    case "medium" => 8.0
    case _ => 3.0
  }

  /** Points one finding takes off the score. */
  function Deduction(f: FindingFields): real
  {
    SeverityWeight(f.severity) * ConfidenceOf(f)
  }

  /** Points all findings take off, in list order. */
  function TotalDeduction(fs: seq<FindingFields>): real
  {
    if fs == [] then 0.0 else TotalDeduction(fs[..|fs| - 1]) + Deduction(fs[|fs| - 1])
  }

  /** `base_score` before clamping: 100, minus each finding's deduction, minus 10
      per policy violation. */
  function BaseScore(fs: seq<FindingFields>, violations: nat): real
  {
    100.0 - TotalDeduction(fs) - 10.0 * violations as real
  }

  /** Python's `int(x)` on a float: truncation toward zero. */
  function Trunc(x: real): (i: int)
    ensures x >= 0.0 ==> i as real <= x < i as real + 1.0
    ensures x < 0.0 ==> i as real - 1.0 < x <= i as real
  {
    if x >= 0.0 then x.Floor else -((-x).Floor)
  }

  /** `max(0, min(100, i))`. */
  function Clamp(i: int): (c: int)
    ensures 0 <= c <= 100
    ensures 0 <= i <= 100 ==> c == i
    ensures i < 0 ==> c == 0
    ensures i > 100 ==> c == 100
  {
    if i < 0 then 0 else if i > 100 then 100 else i
  }

  /** The security score: the truncated base score, clamped to 0..100. */
  function SecurityScore(fs: seq<FindingFields>, violations: nat): (s: int)
    ensures 0 <= s <= 100
  {
    Clamp(Trunc(BaseScore(fs, violations)))
  }

  datatype RiskLevel = Low | Medium | High | Critical
  {
    /** The label the source returns. */
    function Name(): string
    {
      match this
      case Low => "low"
      case Medium => "medium"
      case High => "high"
      case Critical => "critical"
    }

    /** Severity of the label: 0 for low up to 3 for critical. */
    function Rank(): nat
    {
      match this
      case Low => 0
      case Medium => 1
      case High => 2
      case Critical => 3
    }
  }

  /** The risk label of a score; each boundary 90, 70 and 50 falls in the better band. */
  function LevelOf(score: int): (l: RiskLevel)
    ensures l == Low <==> score >= 90
    ensures l == Medium <==> 70 <= score < 90
    ensures l == High <==> 50 <= score < 70
    ensures l == Critical <==> score < 50
  {
    if score >= 90 then Low
    else if score >= 70 then Medium
    else if score >= 50 then High
    else Critical
  }

  /** The four labels are distinct strings, so the label names the band. */
  lemma LevelNamesDistinct(a: RiskLevel, b: RiskLevel)
    requires a.Name() == b.Name()
    ensures a == b
  {
  }

  /** A lower score never gets a milder label. */
  lemma LevelMonotone(s1: int, s2: int)
    requires s1 <= s2
    ensures LevelOf(s1).Rank() >= LevelOf(s2).Rank()
  {
  }

  /** `_calculate_security_metrics`: the score and its risk label. */
  method CalculateSecurityMetrics<V>(vulnerabilities: seq<FindingFields>, policyViolations: seq<V>)
    returns (securityScore: int, riskLevel: string)
    ensures securityScore == SecurityScore(vulnerabilities, |policyViolations|)
    ensures 0 <= securityScore <= 100
    ensures riskLevel == LevelOf(securityScore).Name()
  {
    var baseScore: real := 100.0;
    var i := 0;
    while i < |vulnerabilities|
      invariant 0 <= i <= |vulnerabilities|
      invariant baseScore == 100.0 - TotalDeduction(vulnerabilities[..i])
    {
      var vuln := vulnerabilities[i];
      var deduction := SeverityWeight(vuln.severity) * vuln.confidence.GetOr(0.5);
      assert vulnerabilities[..i + 1][..i] == vulnerabilities[..i];
      baseScore := baseScore - deduction;
      i := i + 1;
    }
    assert vulnerabilities[..i] == vulnerabilities;
    var j := 0;
    while j < |policyViolations|
      invariant 0 <= j <= |policyViolations|
      invariant baseScore == 100.0 - TotalDeduction(vulnerabilities) - 10.0 * j as real
    {
      baseScore := baseScore - 10.0;
      j := j + 1;
    }
    securityScore := Clamp(Trunc(baseScore));
    if securityScore >= 90 {
      riskLevel := "low";
    } else if securityScore >= 70 {
      riskLevel := "medium";
    } else if securityScore >= 50 {
      riskLevel := "high";
    } else {
      riskLevel := "critical";
    }
  }

  /** A clean review scores 100 and is labelled low risk. */
  lemma CleanReview()
    ensures SecurityScore([], 0) == 100
    ensures LevelOf(SecurityScore([], 0)) == Low
  {
  }

  /** Deductions of two lists of findings add up. */
  lemma {:induction false} TotalDeductionConcat(a: seq<FindingFields>, b: seq<FindingFields>)
    ensures TotalDeduction(a + b) == TotalDeduction(a) + TotalDeduction(b)
  {
    if b != [] {
      var ab := a + b;
      assert ab[..|ab| - 1] == a + b[..|b| - 1];
      assert ab[|ab| - 1] == b[|b| - 1];
      TotalDeductionConcat(a, b[..|b| - 1]);
    } else {
      assert a + b == a;
    }
  }

  /** A finding whose confidence is not negative takes off a non-negative amount. */
  lemma DeductionNonNegative(f: FindingFields)
    requires ConfidenceOf(f) >= 0.0
    ensures Deduction(f) >= 0.0
  {
  }

  /** Before clamping, each finding takes off exactly weight × confidence. */
  lemma FindingDeducts(fs: seq<FindingFields>, f: FindingFields, violations: nat)
    ensures BaseScore(fs + [f], violations)
         == BaseScore(fs, violations) - SeverityWeight(f.severity) * ConfidenceOf(f)
  {
    assert (fs + [f])[..|fs|] == fs;
  }

  /** Before clamping, each policy violation takes off exactly 10. */
  lemma ViolationDeducts(fs: seq<FindingFields>, violations: nat)
    ensures BaseScore(fs, violations + 1) == BaseScore(fs, violations) - 10.0
  {
  }

  lemma TruncMonotone(x: real, y: real)
    requires x <= y
    ensures Trunc(x) <= Trunc(y)
  {
  }

  /** The score only moves with the base score. */
  lemma ScoreMonotone(fs1: seq<FindingFields>, n1: nat, fs2: seq<FindingFields>, n2: nat)
    requires BaseScore(fs1, n1) <= BaseScore(fs2, n2)
    ensures SecurityScore(fs1, n1) <= SecurityScore(fs2, n2)
  {
    TruncMonotone(BaseScore(fs1, n1), BaseScore(fs2, n2));
  }

  /** Adding a finding anywhere in the list, with a non-negative (or absent)
      confidence, never raises the score. */
  lemma AddingFindingNeverRaises(a: seq<FindingFields>, f: FindingFields, b: seq<FindingFields>, violations: nat)
    requires ConfidenceOf(f) >= 0.0
    ensures SecurityScore(a + [f] + b, violations) <= SecurityScore(a + b, violations)
  {
    TotalDeductionConcat(a + [f], b);
    TotalDeductionConcat(a, b);
    TotalDeductionConcat(a, [f]);
    assert [f][..0] == [];
    DeductionNonNegative(f);
    ScoreMonotone(a + [f] + b, violations, a + b, violations);
  }

  /** Adding a policy violation never raises the score. */
  lemma AddingViolationNeverRaises(fs: seq<FindingFields>, violations: nat)
    ensures SecurityScore(fs, violations + 1) <= SecurityScore(fs, violations)
  {
    ScoreMonotone(fs, violations + 1, fs, violations);
  }

  /** One critical finding at full confidence: 100 - 25 = 75, medium risk. */
  lemma OneCriticalFinding()
    ensures SecurityScore([FindingFields(Some("critical"), Some(1.0), None)], 0) == 75
    ensures LevelOf(75) == Medium
  {
    var fs := [FindingFields(Some("critical"), Some(1.0), None)];
    assert fs[..0] == [];
  }

  /** Truncation, not rounding: one high finding of the built-in table
      (confidence 0.7) leaves 89.5, which scores 89 and so medium, not low. */
  lemma TruncationNotRounding()
    ensures SecurityScore([FindingFields(Some("high"), Some(0.7), None)], 0) == 89
    ensures LevelOf(89) == Medium
  {
    var fs := [FindingFields(Some("high"), Some(0.7), None)];
    assert fs[..0] == [];
    assert BaseScore(fs, 0) == 89.5;
  }

  /** A finding without severity or confidence counts as low at 0.5: 1.5 points. */
  lemma MissingFieldsDefaults(f: FindingFields)
    requires f.severity.None? && f.confidence.None?
    ensures Deduction(f) == 1.5
  {
  }

  // ---------------------------------------------------------------------------
  // RiskCalculator
  // ---------------------------------------------------------------------------

  /** `risk_factors["severity"].get(vulnerability.get("severity", "low"), 0.2)`. */
  function SeverityFactor(severity: Option<string>): (r: real)
    ensures 0.2 <= r <= 1.0
    ensures r == 1.0 <==> severity == Some("critical")
    ensures r == 0.8 <==> severity == Some("high")
    ensures r == 0.5 <==> severity == Some("medium")
    ensures r == 0.2 <==> severity.GetOr("low") !in {"critical", "high", "medium"}
  {
    match severity.GetOr("low")
    case "critical" => 1.0
    case "high" => 0.8
    case "medium" => 0.5
    case _ => 0.2
  }

  /** The path ends with one of the security-related file names. This is a plain
      suffix test, so `oauth.py` qualifies too. */
  predicate IsSensitivePath(path: string)
  {
    EndsWith(path, "auth.py") || EndsWith(path, "login.py") || EndsWith(path, "security.py")
  }

  /** `calculate_risk_score`: severity factor × confidence, raised by half for a
      security-related file, capped at 1.0. */
  function RiskScore(f: FindingFields): (r: real)
    ensures r <= 1.0
    ensures ConfidenceOf(f) >= 0.0 ==> r >= 0.0
    ensures SeverityFactor(f.severity) * ConfidenceOf(f) * (if IsSensitivePath(f.filePath.GetOr("")) then 1.5 else 1.0) >= 1.0
            ==> r == 1.0
  {
    var base := SeverityFactor(f.severity) * ConfidenceOf(f);
    var adjusted := if IsSensitivePath(f.filePath.GetOr("")) then base * 1.5 else base;
    if adjusted < 1.0 then adjusted else 1.0
  }

  /** Outside security-related files the weight is the plain product whenever
      it stays within the cap. */
  lemma RiskScoreOrdinaryFile(f: FindingFields)
    requires !IsSensitivePath(f.filePath.GetOr(""))
    requires SeverityFactor(f.severity) * ConfidenceOf(f) <= 1.0
    ensures RiskScore(f) == SeverityFactor(f.severity) * ConfidenceOf(f)
  {
  }

  /** Moving a finding into a security-related file never lowers its weight, and
      raises it by half when the cap is not reached. */
  lemma SensitiveFileRaisesRisk(f: FindingFields, p: string, q: string)
    requires ConfidenceOf(f) >= 0.0
    requires IsSensitivePath(p) && !IsSensitivePath(q)
    ensures RiskScore(f.(filePath := Some(p))) >= RiskScore(f.(filePath := Some(q)))
    ensures SeverityFactor(f.severity) * ConfidenceOf(f) * 1.5 <= 1.0 ==>
              RiskScore(f.(filePath := Some(p))) == 1.5 * RiskScore(f.(filePath := Some(q)))
  {
  }

  /** A file merely ending in `auth.py`, like `oauth.py`, counts as security-related,
      and a missing path does not. */
  lemma SuffixMatchExamples()
    ensures IsSensitivePath("oauth.py")
    ensures IsSensitivePath("src/login.py")
    ensures !IsSensitivePath("auth.pyc")
    ensures !IsSensitivePath("")
  {
    assert "oauth.py"[1..] == "auth.py";
    assert "src/login.py"[4..] == "login.py";
  }

  /** A critical finding at the table's confidence 0.7 in `auth.py` hits the cap:
      1.0 × 0.7 × 1.5 = 1.05 is reported as 1.0. */
  lemma CriticalInAuthFileCapped()
    ensures RiskScore(FindingFields(Some("critical"), Some(0.7), Some("auth.py"))) == 1.0
  {
  }
}
