/**
 * The review pipeline of the enhanced security agent over a directory that has
 * already been walked: which files are scanned and counted, and how findings,
 * the score, the label and the advice are put together.
 *
 * The directory walk and file reading are not modelled: a directory is the list
 * of files `os.walk` would visit, each with its name, its joined path and its
 * text, or `None` when it cannot be opened.
 */
module SecurityAgent {
  import opened Wrappers
  import opened Text
  import opened Findings
  import opened Detector
  import opened Scoring
  import opened Advice

  /** A file met during the walk. */
  datatype SourceFile = SourceFile(name: string, path: string, content: Option<string>)

  /** The extension test both the scan and the file count apply: a
      case-sensitive suffix test against six extensions. */
  predicate IsCodeFile(name: string)
  {
    || EndsWith(name, ".py") || EndsWith(name, ".js") || EndsWith(name, ".java")
    || EndsWith(name, ".php") || EndsWith(name, ".rb") || EndsWith(name, ".go")
  }

  /** The extension test is a plain, case-sensitive suffix test. */
  lemma CodeFileExamples()
    ensures IsCodeFile("app.py") && IsCodeFile("Main.java") && IsCodeFile("server.go")
    ensures !IsCodeFile("APP.PY") && !IsCodeFile("notes.txt") && !IsCodeFile("cache.pyc")
    ensures !IsCodeFile("")
  {
    assert "app.py"[3..] == ".py";
    assert "Main.java"[4..] == ".java";
    assert "server.go"[6..] == ".go";
  }

  /** The files that are scanned and counted, in walk order. */
  function CodeFiles(files: seq<SourceFile>): seq<SourceFile>
  {
    if files == [] then []
    else CodeFiles(files[..|files| - 1]) + (if IsCodeFile(files[|files| - 1].name) then [files[|files| - 1]] else [])
  }

  lemma {:induction false} CodeFilesSpec(files: seq<SourceFile>)
    ensures |CodeFiles(files)| <= |files|
    ensures forall f :: f in CodeFiles(files) <==> f in files && IsCodeFile(f.name)
  {
    if files != [] {
      CodeFilesSpec(files[..|files| - 1]);
      assert files == files[..|files| - 1] + [files[|files| - 1]];
    }
  }

  /** All findings of a walk, file by file in walk order. */
  function DetectAll(md5: Md5, search: LineScan.Search, files: seq<SourceFile>): seq<Vulnerability>
  {
    if files == [] then []
    else
      var f := files[|files| - 1];
      DetectAll(md5, search, files[..|files| - 1])
        + (if IsCodeFile(f.name) && f.content.Some?
           then Detect(md5, search, f.path, VulnerabilityPatterns, Lines(f.content.value))
           else [])
  }

  /** Every finding of a walk comes from a readable code file of that walk, and
      is one the detector reports for that file's text. */
  lemma {:induction false} DetectAllSound(md5: Md5, search: LineScan.Search, files: seq<SourceFile>)
    ensures forall v :: v in DetectAll(md5, search, files) ==>
              exists f :: f in files && IsCodeFile(f.name) && f.content.Some? && f.path == v.filePath
                       && v in Detect(md5, search, f.path, VulnerabilityPatterns, Lines(f.content.value))
  {
    if files != [] {
      var prefix := files[..|files| - 1];
      var f := files[|files| - 1];
      DetectAllSound(md5, search, prefix);
      if IsCodeFile(f.name) && f.content.Some? {
        DetectFields(md5, search, f.path, VulnerabilityPatterns, Lines(f.content.value));
      }
      forall v | v in DetectAll(md5, search, files)
        ensures exists g :: g in files && IsCodeFile(g.name) && g.content.Some? && g.path == v.filePath
                         && v in Detect(md5, search, g.path, VulnerabilityPatterns, Lines(g.content.value))
      {
        if v in DetectAll(md5, search, prefix) {
          var g :| g in prefix && IsCodeFile(g.name) && g.content.Some? && g.path == v.filePath
                   && v in Detect(md5, search, g.path, VulnerabilityPatterns, Lines(g.content.value));
          assert g in files;
        } else {
          assert f in files;
        }
      }
    }
  }

  /** A file that is not code, or cannot be read, adds no findings wherever it
      stands in the walk. */
  lemma SkippedFileAddsNothing(md5: Md5, search: LineScan.Search, files: seq<SourceFile>, f: SourceFile)
    requires !IsCodeFile(f.name) || f.content.None?
    ensures DetectAll(md5, search, files + [f]) == DetectAll(md5, search, files)
  {
    assert (files + [f])[..|files|] == files;
  }

  /** Walking one more file appends that file's findings, if it is a readable
      code file. */
  lemma DetectAllStep(md5: Md5, search: LineScan.Search, files: seq<SourceFile>, i: nat)
    requires i < |files|
    ensures DetectAll(md5, search, files[..i + 1])
         == DetectAll(md5, search, files[..i])
            + (if IsCodeFile(files[i].name) && files[i].content.Some?
               then Detect(md5, search, files[i].path, VulnerabilityPatterns, Lines(files[i].content.value))
               else [])
  {
    assert files[..i + 1][..i] == files[..i];
  }

  /** `_detect_vulnerabilities`: the per-file scan over every code file. */
  method DetectVulnerabilities(md5: Md5, search: LineScan.Search, files: seq<SourceFile>)
    returns (vulnerabilities: seq<Vulnerability>)
    ensures vulnerabilities == DetectAll(md5, search, files)
  {
    vulnerabilities := [];
    var i := 0;
    while i < |files|
      invariant 0 <= i <= |files|
      invariant vulnerabilities == DetectAll(md5, search, files[..i])
    {
      var file := files[i];
      DetectAllStep(md5, search, files, i);
      if IsCodeFile(file.name) {
        var fileVulns := AnalyzeFileForVulnerabilities(md5, search, VulnerabilityPatterns, file.path, file.content);
        vulnerabilities := vulnerabilities + fileVulns;
      }
      i := i + 1;
    }
    assert files[..i] == files;
  }

  /** `_count_code_files`. */
  method CountCodeFiles(files: seq<SourceFile>) returns (count: nat)
    ensures count == |CodeFiles(files)|
    ensures count <= |files|
  {
    count := 0;
    var i := 0;
    while i < |files|
      invariant 0 <= i <= |files|
      invariant count == |CodeFiles(files[..i])|
    {
      assert files[..i + 1][..i] == files[..i];
      if IsCodeFile(files[i].name) {
        count := count + 1;
      }
      i := i + 1;
    }
    assert files[..i] == files;
    CodeFilesSpec(files);
  }

  /** The count looks at names only: a code file that cannot be read is counted
      although it is never scanned. */
  lemma UnreadableFileStillCounted(files: seq<SourceFile>, f: SourceFile)
    requires IsCodeFile(f.name) && f.content.None?
    ensures |CodeFiles(files + [f])| == |CodeFiles(files)| + 1
  {
    assert (files + [f])[..|files|] == files;
  }

  /** A violation of the agent's own compliance checks. */
  datatype AgentViolation = AgentViolation(policyName: string, policyDescription: string)

  /** `_check_input_validation`, `_check_authentication_required` and
      `_check_no_hardcoded_secrets`: placeholders that find nothing. */
  method RunComplianceCheck(policyName: string, files: seq<SourceFile>) returns (found: seq<AgentViolation>)
    ensures found == []
  {
    found := [];
  }

  /** `_check_policy_compliance`: runs the three named checks in turn, so no
      violation is ever reported. */
  method CheckPolicyCompliance(files: seq<SourceFile>) returns (violations: seq<AgentViolation>)
    ensures violations == []
  {
    violations := [];
    var policies := ["require_input_validation", "require_authentication", "no_hardcoded_secrets"];
    var i := 0;
    while i < |policies|
      invariant 0 <= i <= |policies|
      invariant violations == []
    {
      var found := RunComplianceCheck(policies[i], files);
      violations := violations + found;
      i := i + 1;
    }
  }

  /** The successful result of a review (the timestamp and duration are left out). */
  datatype AnalysisResult = AnalysisResult(
    reviewId: Option<string>,
    status: string,
    securityScore: int,
    riskLevel: string,
    vulnerabilities: seq<Vulnerability>,
    policyViolations: seq<AgentViolation>,
    recommendations: seq<string>,
    filesAnalyzed: nat)

  /** The scoring view of a list of findings. */
  function FieldsOfAll(vs: seq<Vulnerability>): (fs: seq<FindingFields>)
    ensures |fs| == |vs|
    ensures forall i :: 0 <= i < |vs| ==> fs[i] == FieldsOf(vs[i])
  {
    seq(|vs|, i requires 0 <= i < |vs| => FieldsOf(vs[i]))
  }

  /** `analyze_code_for_review`. */
  method AnalyzeCodeForReview(md5: Md5, search: LineScan.Search, reviewId: Option<string>, files: seq<SourceFile>)
    returns (result: AnalysisResult)
    ensures result.status == "success" && result.reviewId == reviewId
    ensures result.vulnerabilities == DetectAll(md5, search, files)
    ensures result.policyViolations == []
    ensures result.securityScore == SecurityScore(FieldsOfAll(result.vulnerabilities), 0)
    ensures result.riskLevel == LevelOf(result.securityScore).Name()
    ensures result.recommendations == Selected(Applies(result.vulnerabilities, 0), |AllAdvice|)
    ensures result.filesAnalyzed == |CodeFiles(files)|
  {
    var vulnerabilities := DetectVulnerabilities(md5, search, files);
    var policyViolations := CheckPolicyCompliance(files);
    var securityScore, riskLevel := CalculateSecurityMetrics(FieldsOfAll(vulnerabilities), policyViolations);
    var recommendations := GenerateRecommendations(vulnerabilities, policyViolations);
    var filesAnalyzed := CountCodeFiles(files);
    result := AnalysisResult(reviewId, "success", securityScore, riskLevel, vulnerabilities,
                             policyViolations, recommendations, filesAnalyzed);
  }

  /** An empty directory: no findings, a perfect score, low risk, no advice. */
  lemma EmptyDirectory(md5: Md5, search: LineScan.Search)
    ensures DetectAll(md5, search, []) == []
    ensures SecurityScore(FieldsOfAll([]), 0) == 100 && LevelOf(100).Name() == "low"
    ensures Selected(Applies([], 0), |AllAdvice|) == []
    ensures |CodeFiles([])| == 0
  {
    assert FieldsOfAll([]) == [];
    NoFindingsNoAdvice();
  }

  /** Since the agent's own compliance checks never report anything, its advice
      never includes the two policy items. */
  lemma AgentNeverGivesPolicyAdvice(vulns: seq<Vulnerability>)
    ensures ReviewViolationsAdvice !in Selected(Applies(vulns, 0), |AllAdvice|)
    ensures AutomateAdvice !in Selected(Applies(vulns, 0), |AllAdvice|)
  {
    RecommendationsSpec(vulns, 0);
  }

  /** A finding of the built-in table takes at most 17.5 points off: the highest
      weight is 25 and the table's confidence never exceeds 0.7. */
  lemma BuiltInFindingDeduction(md5: Md5, search: LineScan.Search, files: seq<SourceFile>, v: Vulnerability)
    requires v in DetectAll(md5, search, files)
    ensures 0.0 <= Deduction(FieldsOf(v)) <= 17.5
  {
    DetectAllSound(md5, search, files);
    var f :| f in files && IsCodeFile(f.name) && f.content.Some? && f.path == v.filePath
             && v in Detect(md5, search, f.path, VulnerabilityPatterns, Lines(f.content.value));
    var lines := Lines(f.content.value);
    DetectSound(md5, search, f.path, VulnerabilityPatterns, lines);
    var c :| c in VulnerabilityPatterns && c.name == v.vulnType && EntryOf(v) in c.entries;
    TableConfidences(lines[v.lineNumber - 1]);
    assert v.confidence == Confidence(v.patternMatched, lines[v.lineNumber - 1]);
  }
}
