/**
 * `_generate_recommendations`: one fixed piece of advice per vulnerability class
 * present, two for policy violations, one more for a long list of findings.
 */
module Advice {
  import opened Findings

  const SqlAdvice := "Use parameterized queries or ORM to prevent SQL injection"
  const XssAdvice := "Implement proper input sanitization and output encoding"
  const SecretsAdvice := "Move secrets to environment variables or secure key management"
  const CryptoAdvice := "Use secure cryptographic algorithms (SHA-256, bcrypt)"
  const ReviewViolationsAdvice := "Review and address security policy violations"
  const AutomateAdvice := "Implement automated policy checking in CI/CD pipeline"
  const CodeReviewAdvice := "Consider implementing a security code review process"

  /** Every piece of advice, in the order it can appear. */
  const AllAdvice: seq<string> := [SqlAdvice, XssAdvice, SecretsAdvice, CryptoAdvice,
                                   ReviewViolationsAdvice, AutomateAdvice, CodeReviewAdvice]

  /** The seven pieces of advice are seven different strings. */
  lemma AdviceDistinct()
    ensures forall i, j :: 0 <= i < j < |AllAdvice| ==> AllAdvice[i] != AllAdvice[j]
  {
    assert CryptoAdvice != AutomateAdvice;
  }

  /** Some finding is of class `cls`. */
  predicate Present(vulns: seq<Vulnerability>, cls: string)
  {
    exists k :: 0 <= k < |vulns| && vulns[k].vulnType == cls
  }

  /** Which of the seven pieces of advice apply, position by position in AllAdvice. */
  function Applies(vulns: seq<Vulnerability>, violations: nat): (flags: seq<bool>)
    ensures |flags| == |AllAdvice|
  {
    [Present(vulns, "sql_injection"), Present(vulns, "xss"),
     Present(vulns, "hardcoded_secrets"), Present(vulns, "insecure_crypto"),
     violations > 0, violations > 0, |vulns| > 5]
  }

  /** The applicable advice among the first `n` pieces, in AllAdvice order. */
  function Selected(flags: seq<bool>, n: nat): seq<string>
    requires n <= |flags| == |AllAdvice|
  {
    if n == 0 then [] else Selected(flags, n - 1) + (if flags[n - 1] then [AllAdvice[n - 1]] else [])
  }

  /** The selection holds exactly the applicable advice, each once, in AllAdvice
      order: position `pos[k]` of AllAdvice is the k-th piece selected. */
  lemma {:induction false} SelectedSpec(flags: seq<bool>, n: nat) returns (pos: seq<nat>)
    requires n <= |flags| == |AllAdvice|
    ensures var r := Selected(flags, n);
            && |pos| == |r| <= n
            && (forall k :: 0 <= k < |r| ==> pos[k] < n && flags[pos[k]] && r[k] == AllAdvice[pos[k]])
            && (forall k, l :: 0 <= k < l < |r| ==> pos[k] < pos[l])
            && (forall i :: 0 <= i < |AllAdvice| ==> (AllAdvice[i] in r <==> i < n && flags[i]))
  {
    AdviceDistinct();
    if n == 0 {
      pos := [];
    } else {
      var before := SelectedSpec(flags, n - 1);
      pos := before + (if flags[n - 1] then [n - 1] else []);
      var r0 := Selected(flags, n - 1);
      var r := Selected(flags, n);
      assert r == r0 + (if flags[n - 1] then [AllAdvice[n - 1]] else []);
      forall i | 0 <= i < |AllAdvice|
        ensures AllAdvice[i] in r <==> i < n && flags[i]
      {
        assert AllAdvice[i] in r <==> AllAdvice[i] in r0 || (flags[n - 1] && AllAdvice[i] == AllAdvice[n - 1]);
      }
    }
  }

  /** `_generate_recommendations`. */
  method GenerateRecommendations<V>(vulnerabilities: seq<Vulnerability>, policyViolations: seq<V>)
    returns (recommendations: seq<string>)
    ensures recommendations == Selected(Applies(vulnerabilities, |policyViolations|), |AllAdvice|)
  {
    ghost var flags := Applies(vulnerabilities, |policyViolations|);
    recommendations := [];
    var vulnTypes := set v | v in vulnerabilities :: v.vulnType;
    assert forall cls :: cls in vulnTypes <==> Present(vulnerabilities, cls) by {
      forall cls
        ensures cls in vulnTypes <==> Present(vulnerabilities, cls)
      {
        if Present(vulnerabilities, cls) {
          var k :| 0 <= k < |vulnerabilities| && vulnerabilities[k].vulnType == cls;
          assert vulnerabilities[k] in vulnerabilities;
        }
      }
    }
    if "sql_injection" in vulnTypes {
      recommendations := recommendations + [SqlAdvice];
    }
    assert recommendations == Selected(flags, 1);
    if "xss" in vulnTypes {
      recommendations := recommendations + [XssAdvice];
    }
    assert recommendations == Selected(flags, 2);
    if "hardcoded_secrets" in vulnTypes {
      recommendations := recommendations + [SecretsAdvice];
    }
    assert recommendations == Selected(flags, 3);
    if "insecure_crypto" in vulnTypes {
      recommendations := recommendations + [CryptoAdvice];
    }
    assert recommendations == Selected(flags, 4);
    if |policyViolations| > 0 {
      recommendations := recommendations + [ReviewViolationsAdvice];
      recommendations := recommendations + [AutomateAdvice];
    }
    assert recommendations == Selected(flags, 6);
    if |vulnerabilities| > 5 {
      recommendations := recommendations + [CodeReviewAdvice];
    }
  }

  /** The full selection holds each piece of advice exactly when it applies. */
  lemma SelectedMembers(flags: seq<bool>)
    requires |flags| == |AllAdvice|
    ensures forall i :: 0 <= i < |AllAdvice| ==> (AllAdvice[i] in Selected(flags, |AllAdvice|) <==> flags[i])
  {
    var _ := SelectedSpec(flags, |AllAdvice|);
  }

  /** The full selection repeats nothing and holds only pieces of AllAdvice. */
  lemma SelectedDistinct(flags: seq<bool>)
    requires |flags| == |AllAdvice|
    ensures var r := Selected(flags, |AllAdvice|);
            && |r| <= 7
            && (forall k, l :: 0 <= k < l < |r| ==> r[k] != r[l])
            && (forall k :: 0 <= k < |r| ==> r[k] in AllAdvice)
  {
    var r := Selected(flags, |AllAdvice|);
    var pos := SelectedSpec(flags, |AllAdvice|);
    AdviceDistinct();
    forall k, l | 0 <= k < l < |r|
      ensures r[k] != r[l]
    {
      assert pos[k] < pos[l];
    }
  }

  /** What `_generate_recommendations` promises: the advice of each class present,
      both policy items exactly when there are violations, the review item exactly
      when there are more than five findings; nothing repeated, at most seven items,
      in the fixed order of AllAdvice. */
  lemma RecommendationsSpec(vulns: seq<Vulnerability>, violations: nat)
    ensures var r := Selected(Applies(vulns, violations), |AllAdvice|);
            && (SqlAdvice in r <==> Present(vulns, "sql_injection"))
            && (XssAdvice in r <==> Present(vulns, "xss"))
            && (SecretsAdvice in r <==> Present(vulns, "hardcoded_secrets"))
            && (CryptoAdvice in r <==> Present(vulns, "insecure_crypto"))
            && (ReviewViolationsAdvice in r <==> violations > 0)
            && (AutomateAdvice in r <==> violations > 0)
            && (CodeReviewAdvice in r <==> |vulns| > 5)
            && |r| <= 7
            && (forall k, l :: 0 <= k < l < |r| ==> r[k] != r[l])
            && (forall k :: 0 <= k < |r| ==> r[k] in AllAdvice)
  {
    var flags := Applies(vulns, violations);
    SelectedMembers(flags);
    SelectedDistinct(flags);
    assert AllAdvice[0] == SqlAdvice && AllAdvice[1] == XssAdvice && AllAdvice[2] == SecretsAdvice;
    assert AllAdvice[3] == CryptoAdvice && AllAdvice[4] == ReviewViolationsAdvice;
    assert AllAdvice[5] == AutomateAdvice && AllAdvice[6] == CodeReviewAdvice;
  }

  /** Only the policy items depend on the violations, and only on whether there
      are any. */
  lemma RecommendationsIgnoreViolationCount(vulns: seq<Vulnerability>, m: nat, n: nat)
    requires (m > 0) == (n > 0)
    ensures Selected(Applies(vulns, m), |AllAdvice|) == Selected(Applies(vulns, n), |AllAdvice|)
  {
  }

  /** No findings and no violations: no advice at all. */
  lemma NoFindingsNoAdvice()
    ensures Selected(Applies([], 0), |AllAdvice|) == []
  {
    var flags := Applies([], 0);
    assert Selected(flags, 0) == [];
    assert Selected(flags, 1) == [];
    assert Selected(flags, 2) == [];
    assert Selected(flags, 3) == [];
    assert Selected(flags, 4) == [];
    assert Selected(flags, 5) == [];
    assert Selected(flags, 6) == [];
  }
}
