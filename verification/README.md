# ICRA security core in Dafny

This project models two parts of the ICRA security package and proves properties of the models.

- **The enhanced security agent** (`icra/security/engines/enhanced_security_agent.py`). It scans every code file of a review's directory, line by line, against a fixed table of vulnerability signatures. Each signature is a regular expression with a severity and a description. For each match it produces a finding with an identifier and a confidence. It then folds the findings into a 0..100 security score and a risk label, and produces a fixed list of recommendations. Its `RiskCalculator` weighs a single finding.
- **The policy engine** (`icra/security/policies/policy_engine.py`). It keeps a dictionary of security policies, either the four built-in ones or those read from a configuration file. For one file, it runs the rules of every applicable policy through a registry of validators:
  - pattern match;
  - restricted function call;
  - restricted import;
  - function complexity;
  - missing authentication decorator;
  - three validators that report nothing.

  It decorates each report with the policy's fields. It can also summarise its policies.

The modules are:

- `Text`: Python's `split`, `strip`, `str(int)`, `endswith`, `lower` and `Path.suffix`.
- `LineScan`: the enumerate-lines-and-search loop every scanner shares.
- `Findings`, `Detector`, `Scoring`, `Advice` and `SecurityAgent`: the agent.
- `Policies`, `Validators`, `Complexity`, `AuthCheck`, `Evaluation` and `PolicyEngine`: the engine.

Code the model cannot see is passed in as a parameter:

- the regular-expression engine, `Search(pattern, text, ignoreCase)`;
- MD5, as a function to 32 lower-case hex digits;
- the capture group of the `def\s+(\w+)` search, as `DefMatch`.

Everything proved therefore holds for every regex engine and every digest function.

The engine is a class, `PolicyEngine.SecurityPolicyEngine`. Its policy dictionary is a `map` plus the insertion order of its keys, which is the order Python's dict iterates in. Its methods are loops proved against fold functions, such as `EvaluateAll`, `PolicyViolations`, `ItemChecks`, `ComplexityChecks`, `AuthChecks` and `SummaryOf`. Lemmas about those folds state what the source promises:

- soundness and completeness of every report;
- the authentication window;
- which functions the complexity check inspects;
- last-wins loading;
- a consistent summary.

## Model

Source paths are relative to the repository root.

| member | source | states |
|---|---|---|
| Text.Split | icra/security/engines/enhanced_security_agent.py:195 | `split('\n')` yields one more part than there are newlines, and no part contains a newline |
| Text.JoinSplit | icra/security/engines/enhanced_security_agent.py:195 | joining the lines with newlines gives the file content back |
| Text.SplitJoin | icra/security/engines/enhanced_security_agent.py:195 | splitting a join of newline-free lines gives those lines back |
| Text.LStripSpec | icra/security/engines/enhanced_security_agent.py:212 | `lstrip` drops exactly the leading whitespace |
| Text.RStripSpec | icra/security/engines/enhanced_security_agent.py:212 | `rstrip` drops exactly the trailing whitespace |
| Text.StripSpec | icra/security/engines/enhanced_security_agent.py:212 | the stripped line is the infix between leading and trailing whitespace and neither starts nor ends with whitespace |
| Text.NatToString | icra/security/engines/enhanced_security_agent.py:336 | the line number in the hashed key is rendered in decimal digits with no leading zero |
| Text.ParseNatToString | icra/security/engines/enhanced_security_agent.py:336 | parsing the rendered line number gives the number back |
| Text.NatToStringInjective | icra/security/engines/enhanced_security_agent.py:336 | different line numbers give different renderings |
| Text.PathSuffix | icra/security/policies/policy_engine.py:39 | `Path(p).suffix` is non-empty exactly when the last dot of the last path component is neither its first nor its last character; it is then a dot followed by dot-free text, taken from the end of that component |
| Text.LowerChar | icra/security/policies/policy_engine.py:39 | an ASCII capital becomes its small letter; every other character is left as it is |
| Text.Lower | icra/security/policies/policy_engine.py:39 | `lower()` keeps the length and folds each ASCII capital |
| LineScan.MatchingLinesSpec | icra/security/engines/enhanced_security_agent.py:203-204 | the 1-based line numbers whose line passes the test, ascending and each once, and none other |
| LineScan.ScanLinesSpec | icra/security/engines/enhanced_security_agent.py:203-204 | one report per matching line, in line order, built from that line |
| LineScan.ScanLinesExactlyOnce | icra/security/engines/enhanced_security_agent.py:203-204 | a matching line is reported at exactly one position |
| Findings.Confidence | icra/security/engines/enhanced_security_agent.py:339-347 | 0.9 iff the pattern has more than 50 characters, 0.7 iff 31..50, 0.5 otherwise; the line plays no part |
| Findings.TableConfidences | icra/security/engines/enhanced_security_agent.py:56-107 | no built-in signature exceeds 50 characters, so no built-in finding has confidence 0.9 |
| Findings.VulnId | icra/security/engines/enhanced_security_agent.py:334-337 | the id is 12 lower-case hex digits and a prefix of the digest of `path:line:type` |
| Findings.VulnKeyInjective | icra/security/engines/enhanced_security_agent.py:334-337 | with colon-free class names, distinct (path, line, type) triples give distinct hashed keys |
| Findings.ClassNamesColonFree | icra/security/engines/enhanced_security_agent.py:56-107 | no class name of the table contains a colon |
| Detector.ClassSound | icra/security/engines/enhanced_security_agent.py:197-217 | every finding of a class names that class and one of its signatures, and is reported at a line that signature matches |
| Detector.DetectSound | icra/security/engines/enhanced_security_agent.py:197-217 | every finding of a file comes from a class and a signature of the table and from a matching line |
| Detector.DetectFields | icra/security/engines/enhanced_security_agent.py:205-215 | every finding carries the file path, the stripped line, the md5-derived id and the length-based confidence |
| Detector.DetectComplete | icra/security/engines/enhanced_security_agent.py:197-217 | every (class, signature, matching line) triple yields its finding |
| Detector.ClassComplete | icra/security/engines/enhanced_security_agent.py:198-217 | every signature of a class that matches a line yields its finding |
| Detector.DetectConcat | icra/security/engines/enhanced_security_agent.py:197 | scanning with two tables in turn gives the findings of the first, then those of the second |
| Detector.ClassConcat | icra/security/engines/enhanced_security_agent.py:198 | the findings of a class are those of its signatures in table order |
| Detector.ScanSignature | icra/security/engines/enhanced_security_agent.py:203-215 | the line loop of one signature computes that signature's findings |
| Detector.AnalyzeFileForVulnerabilities | icra/security/engines/enhanced_security_agent.py:188-220 | an unreadable file gives no findings; otherwise the loops give the table's findings on the file's lines |
| Scoring.SeverityWeight | icra/security/engines/enhanced_security_agent.py:277-281 | 25, 15 and 8 for critical, high and medium; 3 for any other or missing severity |
| Scoring.Trunc | icra/security/engines/enhanced_security_agent.py:290 | `int()` truncates toward zero |
| Scoring.Clamp | icra/security/engines/enhanced_security_agent.py:290 | the result lies in 0..100 and is the input whenever the input already does |
| Scoring.SecurityScore | icra/security/engines/enhanced_security_agent.py:272-290 | the score lies between 0 and 100 |
| Scoring.LevelOf | icra/security/engines/enhanced_security_agent.py:292-300 | low iff the score is at least 90, medium iff 70..89, high iff 50..69, critical below 50 |
| Scoring.LevelNamesDistinct | icra/security/engines/enhanced_security_agent.py:292-300 | the four labels are different strings |
| Scoring.LevelMonotone | icra/security/engines/enhanced_security_agent.py:292-300 | a lower score never gets a less severe label |
| Scoring.CalculateSecurityMetrics | icra/security/engines/enhanced_security_agent.py:272-302 | the loops compute the clamped, truncated score and its label |
| Scoring.CleanReview | icra/security/engines/enhanced_security_agent.py:272-302 | no findings and no violations give 100 and "low" |
| Scoring.TotalDeductionConcat | icra/security/engines/enhanced_security_agent.py:279-283 | deductions add up over concatenated finding lists |
| Scoring.DeductionNonNegative | icra/security/engines/enhanced_security_agent.py:279-283 | a finding with non-negative confidence never adds points |
| Scoring.FindingDeducts | icra/security/engines/enhanced_security_agent.py:279-283 | one more finding lowers the raw score by its weight times its confidence |
| Scoring.ViolationDeducts | icra/security/engines/enhanced_security_agent.py:286-287 | one more policy violation lowers the raw score by exactly 10 |
| Scoring.TruncMonotone | icra/security/engines/enhanced_security_agent.py:290 | truncation is monotone |
| Scoring.ScoreMonotone | icra/security/engines/enhanced_security_agent.py:272-290 | a lower raw score never gives a higher final score |
| Scoring.AddingFindingNeverRaises | icra/security/engines/enhanced_security_agent.py:272-290 | inserting a finding anywhere never raises the score |
| Scoring.AddingViolationNeverRaises | icra/security/engines/enhanced_security_agent.py:286-290 | an extra policy violation never raises the score |
| Scoring.OneCriticalFinding | icra/security/engines/enhanced_security_agent.py:272-300 | one critical finding at confidence 1.0 gives 75, which is "medium" |
| Scoring.TruncationNotRounding | icra/security/engines/enhanced_security_agent.py:290 | one high finding at 0.7 gives 89, not 90, so it is "medium" rather than "low" |
| Scoring.MissingFieldsDefaults | icra/security/engines/enhanced_security_agent.py:279-281 | a finding without severity or confidence deducts 3 × 0.5 |
| Scoring.SeverityFactor | icra/security/engines/enhanced_security_agent.py:363-370 | the severity factor is 1.0 exactly for "critical", 0.8 exactly for "high", 0.5 exactly for "medium", and 0.2 for "low", any other label or a missing severity |
| Scoring.RiskScore | icra/security/engines/enhanced_security_agent.py:368-380 | the risk is capped at 1.0, is exactly 1.0 whenever factor × confidence (× 1.5 in a security-related file) reaches 1.0, and is non-negative for non-negative confidence |
| Scoring.RiskScoreOrdinaryFile | icra/security/engines/enhanced_security_agent.py:370-377 | outside the three sensitive file names, risk is severity factor times confidence |
| Scoring.SensitiveFileRaisesRisk | icra/security/engines/enhanced_security_agent.py:377-380 | a path ending in auth.py, login.py or security.py never lowers the risk, and raises it by half when the cap allows |
| Scoring.SuffixMatchExamples | icra/security/engines/enhanced_security_agent.py:377 | the test is a plain suffix test: "oauth.py" counts and "auth.pyc" does not |
| Scoring.CriticalInAuthFileCapped | icra/security/engines/enhanced_security_agent.py:368-380 | a critical finding at 0.7 in auth.py reaches the cap of 1.0 |
| Advice.AdviceDistinct | icra/security/engines/enhanced_security_agent.py:312-330 | the seven recommendations are distinct strings |
| Advice.Applies | icra/security/engines/enhanced_security_agent.py:310-330 | there is one flag per recommendation |
| Advice.SelectedSpec | icra/security/engines/enhanced_security_agent.py:306-332 | the selection keeps exactly the flagged recommendations, in order |
| Advice.GenerateRecommendations | icra/security/engines/enhanced_security_agent.py:304-332 | the method computes the selection of applicable recommendations |
| Advice.RecommendationsSpec | icra/security/engines/enhanced_security_agent.py:304-332 | each recommendation appears iff its condition holds: a class present, any violation, or more than five findings; no repeats |
| Advice.RecommendationsIgnoreViolationCount | icra/security/engines/enhanced_security_agent.py:324-326 | only whether there are violations matters, not how many |
| Advice.NoFindingsNoAdvice | icra/security/engines/enhanced_security_agent.py:304-332 | a clean review gets no recommendations |
| SecurityAgent.CodeFileExamples | icra/security/engines/enhanced_security_agent.py:181 | the extension test is case-sensitive and exact |
| SecurityAgent.CodeFilesSpec | icra/security/engines/enhanced_security_agent.py:179-181 | the scanned files are exactly the walked files with a code extension |
| SecurityAgent.DetectAllSound | icra/security/engines/enhanced_security_agent.py:175-186 | every finding comes from a readable code file with that path |
| SecurityAgent.SkippedFileAddsNothing | icra/security/engines/enhanced_security_agent.py:181-218 | a non-code or unreadable file adds no findings |
| SecurityAgent.DetectVulnerabilities | icra/security/engines/enhanced_security_agent.py:175-186 | the walk loop computes the concatenated per-file findings |
| SecurityAgent.CountCodeFiles | icra/security/engines/enhanced_security_agent.py:349-356 | the count is the number of code files and at most the number of files |
| SecurityAgent.UnreadableFileStillCounted | icra/security/engines/enhanced_security_agent.py:349-356 | an unreadable code file still counts as analysed |
| SecurityAgent.RunComplianceCheck | icra/security/engines/enhanced_security_agent.py:254-270 | each of the three built-in compliance checks reports nothing |
| SecurityAgent.CheckPolicyCompliance | icra/security/engines/enhanced_security_agent.py:222-252 | the agent's compliance pass yields no violations |
| SecurityAgent.FieldsOfAll | icra/security/engines/enhanced_security_agent.py:278-280 | scoring reads each finding's severity and confidence |
| SecurityAgent.AnalyzeCodeForReview | icra/security/engines/enhanced_security_agent.py:109-164 | a successful review carries the findings, no violations, the score and label of those findings, their advice and the code-file count |
| SecurityAgent.EmptyDirectory | icra/security/engines/enhanced_security_agent.py:109-164 | an empty directory scores 100, "low", with no findings, no advice and no files |
| SecurityAgent.AgentNeverGivesPolicyAdvice | icra/security/engines/enhanced_security_agent.py:324-326 | the agent never emits the two policy recommendations |
| SecurityAgent.BuiltInFindingDeduction | icra/security/engines/enhanced_security_agent.py:56-107 | a finding of the built-in table deducts between 0 and 17.5 points |
| Policies.FromData | icra/security/policies/policy_engine.py:21-29 | id, name and description are copied; severity, enabled, rules, `file_types` and `excluded_paths` are copied when present and otherwise default to "medium", true and empty lists |
| Policies.AnyExcludedSpec | icra/security/policies/policy_engine.py:44-47 | a path is excluded iff some excluded-path regex matches it |
| Policies.IsApplicableSpec | icra/security/policies/policy_engine.py:31-49 | a policy applies iff it is enabled, its file types are empty or contain the lower-cased suffix, and no exclusion matches |
| Policies.NoSuffixNotApplicable | icra/security/policies/policy_engine.py:37-41 | with a file-type filter, a file without a suffix never qualifies |
| Policies.SuffixCaseFolded | icra/security/policies/policy_engine.py:39-40 | for a path whose suffix is `.PY`, the suffix is lower-cased before the test: an allow-list holding ".py" admits it and one holding ".PY" never does |
| Policies.UpperSuffix | icra/security/policies/policy_engine.py:39 | the suffix keeps its case before folding |
| Policies.Decorate | icra/security/policies/policy_engine.py:208-215 | a violation carries the policy's id, name, description and severity, the path, the rule type and the validator's report |
| Validators.ItemFindingsStep | icra/security/policies/policy_engine.py:225-235 | the reports for one more item are appended after those of the earlier items |
| Validators.ItemFindingsOrigin | icra/security/policies/policy_engine.py:225-235 | every report comes from a listed item and a line that item's test accepts |
| Validators.ItemFindingsComplete | icra/security/policies/policy_engine.py:225-235 | every (item, accepted line) pair is reported |
| Validators.ScanItem | icra/security/policies/policy_engine.py:226-234 | the line loop of one item computes that item's reports |
| Validators.ScanItems | icra/security/policies/policy_engine.py:225-235 | the nested loops compute the reports of all items |
| Validators.ValidateItems | icra/security/policies/policy_engine.py:220-274 | each of the pattern, function-call and import validators computes its item checks on the file's lines |
| Validators.HitsSound | icra/security/policies/policy_engine.py:220-274 | every report names a listed item whose regex matches the reported line, case-insensitively, with the stripped line and the description |
| Validators.HitsComplete | icra/security/policies/policy_engine.py:220-274 | every listed item matching a line is reported for that line |
| Validators.ItemChecksExact | icra/security/policies/policy_engine.py:220-274 | a report is present iff its item is listed and matches its line, and the report has the validator's form |
| Validators.ItemChecksConcat | icra/security/policies/policy_engine.py:225 | the reports of two item lists are those of the first list, then those of the second |
| Complexity.MatchCount | icra/security/policies/policy_engine.py:305-307 | a line adds at most one point per keyword regex |
| Complexity.ComplexityRunStep | icra/security/policies/policy_engine.py:287-307 | one more line is one more step of the scan |
| Complexity.CountKeywords | icra/security/policies/policy_engine.py:305-307 | the keyword loop adds one point per matching keyword regex |
| Complexity.ValidateComplexityLimit | icra/security/policies/policy_engine.py:276-309 | the method computes the complexity scan, with a limit of 10 when the rule gives none |
| Complexity.ComplexitySound | icra/security/policies/policy_engine.py:289-301 | every report is at the line before a definition, names a non-empty function, exceeds the limit, and reports appear in increasing line order |
| Complexity.ReportsBoundedByDefinitions | icra/security/policies/policy_engine.py:289-301 | there are never more reports than definitions minus one, so a file with at most one def is never reported |
| Complexity.LinesWithoutDefinition | icra/security/policies/policy_engine.py:289-301 | lines without a def never report, so the last function of a file is never checked |
| Complexity.OpenFunction | icra/security/policies/policy_engine.py:289-303 | after a def line, the scan is inside that function with the def line's keyword points |
| Complexity.FunctionReport | icra/security/policies/policy_engine.py:289-307 | between two consecutive defs, the next def reports the first function iff its name is non-empty and its keyword total exceeds the limit |
| AuthCheck.WindowStart | icra/security/policies/policy_engine.py:322 | the window starts at line max(1, n − 5): never before line 1, never more than five lines above the endpoint line n, and no later than n |
| AuthCheck.WindowEnd | icra/security/policies/policy_engine.py:322 | the window ends before the line count and at most one line below the endpoint |
| AuthCheck.MarkerInSpec | icra/security/policies/policy_engine.py:322-326 | the window holds a decorator iff one of its lines matches the decorator regex |
| AuthCheck.FindAuthNear | icra/security/policies/policy_engine.py:321-326 | the loop with its early break finds a decorator exactly when the window holds one |
| AuthCheck.ScanEndpoint | icra/security/policies/policy_engine.py:317-333 | the line loop of one endpoint pattern computes that pattern's reports |
| AuthCheck.ValidateAuthenticationRequired | icra/security/policies/policy_engine.py:311-335 | the method computes the reports of every endpoint pattern on the file's lines |
| AuthCheck.AuthSound | icra/security/policies/policy_engine.py:311-335 | every report is at a line an endpoint pattern matches with no decorator in the window |
| AuthCheck.AuthComplete | icra/security/policies/policy_engine.py:311-335 | every such line is reported |
| AuthCheck.DecoratorNearSuppresses | icra/security/policies/policy_engine.py:322-326 | a decorator from five lines above to one line below, short of the last line, suppresses the report |
| AuthCheck.DecoratorOnlyNearSuppresses | icra/security/policies/policy_engine.py:322-326 | a window holding a decorator has it on a line from five above the endpoint to one below, short of the last line, so a decorator anywhere else never suppresses |
| AuthCheck.LastLineNeverInspected | icra/security/policies/policy_engine.py:322 | a one-line endpoint file is reported even when that line holds the decorator |
| Evaluation.RegistryRoundTrip | icra/security/policies/policy_engine.py:67-78 | the registry maps each of the eight tags to its own validator and holds nothing else |
| Evaluation.ValidatorFor | icra/security/policies/policy_engine.py:202-203 | a validator is found only for a registered tag, and never for a missing type |
| Evaluation.RunValidator | icra/security/policies/policy_engine.py:337-353 | running a validator gives that validator's reports; the input-validation, secure-headers and crypto-standards validators report nothing |
| Evaluation.DecorateAll | icra/security/policies/policy_engine.py:207-215 | one decorated violation per report, in order |
| Evaluation.DecorateRule | icra/security/policies/policy_engine.py:207-215 | the loop decorates every report of a rule |
| Evaluation.EvaluateRule | icra/security/policies/policy_engine.py:201-215 | one rule's contribution is its validator's decorated reports, or nothing |
| Evaluation.EvaluatePolicy | icra/security/policies/policy_engine.py:197-218 | the rule loop computes the policy's violations |
| Evaluation.RulesViolationsStep | icra/security/policies/policy_engine.py:201-215 | one more rule appends its contribution |
| Evaluation.RulesViolationsConcat | icra/security/policies/policy_engine.py:201-215 | the violations of concatenated rule lists are concatenated |
| Evaluation.UnknownRuleIgnored | icra/security/policies/policy_engine.py:202-205 | a rule with a missing or unregistered type is skipped, wherever it stands |
| Evaluation.RulesViolationSound | icra/security/policies/policy_engine.py:197-218 | every violation carries the policy's fields and comes from a listed rule with a registered type |
| Evaluation.PolicyViolationSound | icra/security/policies/policy_engine.py:197-218 | every violation of a policy carries its fields and comes from one of its rules' validators |
| PolicyEngine.Registry.Values | icra/security/policies/policy_engine.py:190 | `policies.values()` lists the stored policies in insertion order |
| PolicyEngine.PutSpec | icra/security/policies/policy_engine.py:179 | storing a policy sets its id, keeps other entries and keeps a re-used id at its old position |
| PolicyEngine.PutAllValid | icra/security/policies/policy_engine.py:177-179 | storing a list of policies keeps the dictionary well formed |
| PolicyEngine.PutAllLastWins | icra/security/policies/policy_engine.py:177-179 | for duplicate ids the last policy stored wins |
| PolicyEngine.PutAllUntouched | icra/security/policies/policy_engine.py:177-179 | ids not in the list keep their entries |
| PolicyEngine.PutFresh | icra/security/policies/policy_engine.py:179 | storing a new id appends its policy to the values |
| PolicyEngine.PutAllFresh | icra/security/policies/policy_engine.py:177-179 | storing policies with new, distinct ids appends them in order |
| PolicyEngine.PoliciesOf | icra/security/policies/policy_engine.py:176-177 | each configuration entry becomes its policy |
| PolicyEngine.WellFormedConfigStoresAll | icra/security/policies/policy_engine.py:167-184 | a file of well-formed entries stores every entry in order |
| PolicyEngine.MalformedEntryStopsLoading | icra/security/policies/policy_engine.py:167-184 | loading stops at the first malformed entry, and the entries before it stay loaded |
| PolicyEngine.MergeEntriesValid | icra/security/policies/policy_engine.py:167-184 | loading keeps the dictionary well formed |
| PolicyEngine.EvaluateAllStep | icra/security/policies/policy_engine.py:189-193 | one more policy appends its violations when it applies |
| PolicyEngine.EvaluateAllSound | icra/security/policies/policy_engine.py:186-195 | every violation comes from an applicable stored policy and carries its id and the path |
| PolicyEngine.EvaluateAllComplete | icra/security/policies/policy_engine.py:186-195 | every violation of an applicable policy is reported |
| PolicyEngine.InapplicablePolicySilent | icra/security/policies/policy_engine.py:190 | a policy that does not apply contributes nothing |
| PolicyEngine.EnabledCount | icra/security/policies/policy_engine.py:357 | the enabled count never exceeds the total |
| PolicyEngine.DistributionSpec | icra/security/policies/policy_engine.py:360-363 | the distribution counts, for each severity, the enabled policies with it, and lists no other severity |
| PolicyEngine.SumOverOther | icra/security/policies/policy_engine.py:360-363 | updating a severity outside the listed keys leaves their sum unchanged |
| PolicyEngine.SumOverIncrement | icra/security/policies/policy_engine.py:360-363 | incrementing one listed severity raises the sum by one |
| PolicyEngine.DistributionTotal | icra/security/policies/policy_engine.py:357-363 | the distribution's counts add up to the enabled count |
| PolicyEngine.SummaryConsistent | icra/security/policies/policy_engine.py:355-370 | enabled plus disabled is the total, disabled is non-negative, and the distribution sums to the enabled count |
| PolicyEngine.EntryCount | icra/security/policies/policy_engine.py:366-368 | the dictionary's size is its number of ids |
| PolicyEngine.DistinctCardinality | icra/security/policies/policy_engine.py:366-368 | distinct ids are as many as listed |
| PolicyEngine.DefaultsLoaded | icra/security/policies/policy_engine.py:80-165 | the defaults are stored under their four ids, in order |
| PolicyEngine.DefaultSummary | icra/security/policies/policy_engine.py:355-370 | the defaults summarise as 4 policies, all enabled: one critical, two high, one medium |
| PolicyEngine.CountEnabled | icra/security/policies/policy_engine.py:357 | the loop counts the enabled policies |
| PolicyEngine.CountSeverities | icra/security/policies/policy_engine.py:360-363 | the loop builds the severity distribution |
| PolicyEngine.SecurityPolicyEngine.constructor | icra/security/policies/policy_engine.py:56-65 | a non-empty configuration path loads that file only; otherwise the defaults are loaded |
| PolicyEngine.SecurityPolicyEngine.Store | icra/security/policies/policy_engine.py:179 | the dictionary becomes the old one with the policy stored under its id |
| PolicyEngine.SecurityPolicyEngine.LoadDefaultPolicies | icra/security/policies/policy_engine.py:80-165 | the four default policies are stored in order |
| PolicyEngine.SecurityPolicyEngine.LoadPoliciesFromFile | icra/security/policies/policy_engine.py:167-184 | the dictionary becomes the old one merged with the file's entries up to the first malformed one |
| PolicyEngine.SecurityPolicyEngine.EvaluatePolicies | icra/security/policies/policy_engine.py:186-195 | the violations are those of the applicable policies, in dictionary order |
| PolicyEngine.SecurityPolicyEngine.GetPolicySummary | icra/security/policies/policy_engine.py:355-370 | the summary of the stored policies |

## Left out

- The regular-expression engine, MD5 and the `def` capture are parameters, so nothing depends on their behaviour. A pattern that fails to compile raises in Python; that path is not modelled. In the policy engine the error escapes the validator and aborts the evaluation; in the vulnerability detector the per-file handler catches it, keeps the findings of that file made so far and goes on with the next file.
- Python floats are modelled as exact reals. Rounding in `weight * confidence` and in the risk product is not modelled.
- `str.lower()` is modelled for ASCII letters only. Other characters are left unchanged.
- Several things are replaced by inputs:
  - the directory walk and file reading: a directory is the list of files the walk visits, each readable or not;
  - reading and parsing YAML or JSON: a configuration is unreadable or a list of entries, each a mapping or not;
  - the regex engine's case-insensitive flag.
- A configuration whose `policies` key is missing reads as an empty list of entries.
- Several things have no effect on any result and are left out:
  - logging;
  - `async` scheduling;
  - timestamps and the analysis duration;
  - the DeepCode base class;
  - the `create_enhanced_security_agent` factory;
  - the module-level engine singleton.
- SecurityAgent.AnalyzeCodeForReview: does not model the error branch, which catches an exception from the walk and reports it. The model has no exceptions in the scan.
- The `context` and `review_context` arguments are dropped, since no modelled code reads them beyond the review id.
- The policy `exceptions` list and other metadata keys are not modelled because they are never read. `file_types` and `excluded_paths` become fields of the policy.
- Entries whose `id`, `name` or `description` key is missing (Python `None`) are not modelled; ids are strings.
- A non-integer `max_complexity` is not modelled; the limit is an integer.
- The validator registry is a constant map rather than an instance field, because no code changes it after construction.
- Loading stops at the first entry that is not a mapping, because building that policy raises and the handler ends the loop. The policies stored before it stay loaded.
