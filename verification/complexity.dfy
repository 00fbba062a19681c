/**
 * `_validate_complexity_limit`: a line-by-line count of branching keywords per
 * function, where a function runs from its `def` line to the line before the
 * next `def`, and is reported (at that line) when its count exceeds the limit.
 *
 * The capture of `def\s+(\w+)` is the `DefMatch` parameter: the name the
 * pattern captures on a line, or `None` when the line holds no definition.
 */
module Complexity {
  import opened Wrappers
  import opened Text
  import opened LineScan
  import opened Policies

  /** `re.search(r'def\s+(\w+)', line)`, reduced to the captured name. */
  type DefMatch = string -> Option<string>

  /** The branching keywords counted, each at most once per line, searched
      case-sensitively. */
  const ComplexityPatterns: seq<string> := [@"\bif\b", @"\bfor\b", @"\bwhile\b", @"\belif\b", @"\bexcept\b"]

  /** The limit when the rule gives none. */
  const DefaultMaxComplexity := 10

  /** How many of `patterns` match the line. */
  function MatchCount(search: Search, patterns: seq<string>, line: string): (c: nat)
    ensures c <= |patterns|
  {
    if patterns == [] then 0
    else
      var last := |patterns| - 1;
      MatchCount(search, patterns[..last], line) + (if search(patterns[last], line, false) then 1 else 0)
  }

  /** What one line adds to the running count. */
  function KeywordHits(search: Search, line: string): nat
  {
    MatchCount(search, ComplexityPatterns, line)
  }

  /** What a run of lines adds to the running count. */
  function KeywordSum(search: Search, lines: seq<string>): nat
  {
    if lines == [] then 0
    else KeywordSum(search, lines[..|lines| - 1]) + KeywordHits(search, lines[|lines| - 1])
  }

  /** The state of the scan after some lines: the function being counted (the
      last name captured), its count so far, and the reports made. */
  datatype Tally = Tally(current: Option<string>, complexity: nat, found: seq<Detail>)

  function ComplexityDescription(complexity: nat, maxAllowed: int): string
  {
    "Function complexity (" + NatToString(complexity) + ") exceeds limit (" + IntToString(maxAllowed) + ")"
  }

  /** The report due when a definition on line `n` closes the current function:
      only a function with a non-empty name whose count exceeds the limit is
      reported, and at line `n - 1`. */
  function CloseFunction(t: Tally, n: nat, maxAllowed: int): seq<Detail>
    requires n >= 1
  {
    if t.current.Some? && t.current.value != "" && t.complexity > maxAllowed
    then [ComplexityHit(n - 1, t.current.value, t.complexity, maxAllowed,
                        ComplexityDescription(t.complexity, maxAllowed))]
    else []
  }

  /** One iteration of the scan on line `n`: a definition closes the current
      function and opens a new one at zero; then the line's keywords are counted
      (a definition line counts toward the function it opens). */
  function ComplexityStep(search: Search, defName: DefMatch, maxAllowed: int, t: Tally, n: nat, line: string): Tally
    requires n >= 1
  {
    var next := match defName(line)
      case None => t
      case Some(name) => Tally(Some(name), 0, t.found + CloseFunction(t, n, maxAllowed));
    next.(complexity := next.complexity + KeywordHits(search, line))
  }

  /** The scan over the first lines of a file. */
  function ComplexityRun(search: Search, defName: DefMatch, maxAllowed: int, lines: seq<string>): Tally
  {
    if lines == [] then Tally(None, 0, [])
    else
      ComplexityStep(search, defName, maxAllowed, ComplexityRun(search, defName, maxAllowed, lines[..|lines| - 1]),
                     |lines|, lines[|lines| - 1])
  }

  /** The reports of the check on a file's lines with a given limit. */
  function ComplexityChecks(search: Search, defName: DefMatch, maxAllowed: int, lines: seq<string>): seq<Detail>
  {
    ComplexityRun(search, defName, maxAllowed, lines).found
  }

  lemma ComplexityRunStep(search: Search, defName: DefMatch, maxAllowed: int, lines: seq<string>, i: nat)
    requires i < |lines|
    ensures ComplexityRun(search, defName, maxAllowed, lines[..i + 1])
         == ComplexityStep(search, defName, maxAllowed, ComplexityRun(search, defName, maxAllowed, lines[..i]), i + 1, lines[i])
  {
    assert lines[..i + 1][..i] == lines[..i];
  }

  /** The inner loop: each keyword pattern that matches the line adds one. */
  method CountKeywords(search: Search, line: string, complexity: nat) returns (updated: nat)
    ensures updated == complexity + KeywordHits(search, line)
  {
    updated := complexity;
    var k := 0;
    while k < |ComplexityPatterns|
      invariant 0 <= k <= |ComplexityPatterns|
      invariant updated == complexity + MatchCount(search, ComplexityPatterns[..k], line)
    {
      assert ComplexityPatterns[..k + 1][..k] == ComplexityPatterns[..k];
      if search(ComplexityPatterns[k], line, false) {
        updated := updated + 1;
      }
      k := k + 1;
    }
    assert ComplexityPatterns[..k] == ComplexityPatterns;
  }

  /** `_validate_complexity_limit`. */
  method ValidateComplexityLimit(search: Search, defName: DefMatch, rule: Rule, content: string)
    returns (violations: seq<Detail>)
    ensures violations == ComplexityChecks(search, defName, rule.maxComplexity.GetOr(DefaultMaxComplexity), Lines(content))
  {
    var maxComplexity := rule.maxComplexity.GetOr(DefaultMaxComplexity);
    var lines := Lines(content);
    violations := [];
    var currentFunction: Option<string> := None;
    var functionComplexity: nat := 0;
    var li := 0;
    while li < |lines|
      invariant 0 <= li <= |lines|
      invariant Tally(currentFunction, functionComplexity, violations)
             == ComplexityRun(search, defName, maxComplexity, lines[..li])
    {
      ghost var before := Tally(currentFunction, functionComplexity, violations);
      var line := lines[li];
      var lineNum := li + 1;
      var funcMatch := defName(line);
      if funcMatch.Some? {
        if currentFunction.Some? && currentFunction.value != "" && functionComplexity > maxComplexity {
          violations := violations + [ComplexityHit(lineNum - 1, currentFunction.value, functionComplexity,
                                                    maxComplexity, ComplexityDescription(functionComplexity, maxComplexity))];
        }
        currentFunction := funcMatch;
        functionComplexity := 0;
      }
      functionComplexity := CountKeywords(search, line, functionComplexity);
      assert Tally(currentFunction, functionComplexity, violations)
          == ComplexityStep(search, defName, maxComplexity, before, li + 1, line);
      ComplexityRunStep(search, defName, maxComplexity, lines, li);
      li := li + 1;
    }
    assert lines[..li] == lines;
  }

  // ---------------------------------------------------------------------------
  // What the reports mean
  // ---------------------------------------------------------------------------

  /** The number of lines holding a definition. */
  function DefCount(defName: DefMatch, lines: seq<string>): nat
  {
    if lines == [] then 0
    else DefCount(defName, lines[..|lines| - 1]) + (if defName(lines[|lines| - 1]).Some? then 1 else 0)
  }

  /** A report of a function whose count exceeds the limit, made at the line just
      before a later definition, with the description giving both numbers. */
  predicate WellFormedReport(defName: DefMatch, maxAllowed: int, lines: seq<string>, x: Detail)
  {
    && x.ComplexityHit? && x.complexity > maxAllowed && x.maxAllowed == maxAllowed
    && x.functionName != "" && 1 <= x.lineNumber < |lines|
    && defName(lines[x.lineNumber]).Some?
    && x.description == ComplexityDescription(x.complexity, maxAllowed)
  }

  /** Every report is well formed, and the reports are in strictly increasing
      line order: one per closing line. */
  lemma {:induction false} ComplexitySound(search: Search, defName: DefMatch, maxAllowed: int, lines: seq<string>)
    ensures var found := ComplexityChecks(search, defName, maxAllowed, lines);
            && (forall k :: 0 <= k < |found| ==> WellFormedReport(defName, maxAllowed, lines, found[k]))
            && (forall k, l :: 0 <= k < l < |found| ==> found[k].lineNumber < found[l].lineNumber)
  {
    if lines != [] {
      var prefix := lines[..|lines| - 1];
      var n := |lines|;
      var t := ComplexityRun(search, defName, maxAllowed, prefix);
      ComplexitySound(search, defName, maxAllowed, prefix);
      assert t.found == ComplexityChecks(search, defName, maxAllowed, prefix);
      forall k | 0 <= k < |t.found|
        ensures WellFormedReport(defName, maxAllowed, lines, t.found[k])
      {
        var x := t.found[k];
        assert WellFormedReport(defName, maxAllowed, prefix, x);
        assert lines[x.lineNumber] == prefix[x.lineNumber];
      }
      var line := lines[n - 1];
      var found := ComplexityChecks(search, defName, maxAllowed, lines);
      if defName(line).Some? {
        var close := CloseFunction(t, n, maxAllowed);
        assert found == t.found + close;
        if close != [] {
          assert t.current.Some?;
          assert prefix != [];
          var hit := close[0];
          assert hit.lineNumber == |prefix|;
          assert WellFormedReport(defName, maxAllowed, lines, hit);
        }
      } else {
        assert found == t.found;
      }
    }
  }

  /** Each definition after the first closes one function, and closes it at most
      once: there are fewer reports than definitions, and none at all in a file
      with at most one definition. */
  lemma {:induction false} ReportsBoundedByDefinitions(search: Search, defName: DefMatch, maxAllowed: int, lines: seq<string>)
    ensures var t := ComplexityRun(search, defName, maxAllowed, lines);
            && (t.current.Some? <==> DefCount(defName, lines) > 0)
            && |t.found| + (if t.current.Some? then 1 else 0) <= DefCount(defName, lines)
    ensures DefCount(defName, lines) <= 1 ==> ComplexityChecks(search, defName, maxAllowed, lines) == []
  {
    if lines != [] {
      ReportsBoundedByDefinitions(search, defName, maxAllowed, lines[..|lines| - 1]);
    }
  }

  /** Lines without a definition only add to the open function's count: the open
      function and the reports stay as they are. In particular the last function
      of a file is never checked. */
  lemma {:induction false} LinesWithoutDefinition(search: Search, defName: DefMatch, maxAllowed: int,
                                                  lines: seq<string>, more: seq<string>)
    requires forall k :: 0 <= k < |more| ==> defName(more[k]).None?
    ensures var t := ComplexityRun(search, defName, maxAllowed, lines);
            ComplexityRun(search, defName, maxAllowed, lines + more)
              == Tally(t.current, t.complexity + KeywordSum(search, more), t.found)
  {
    if more != [] {
      var last := |more| - 1;
      LinesWithoutDefinition(search, defName, maxAllowed, lines, more[..last]);
      assert (lines + more)[..|lines + more| - 1] == lines + more[..last];
      assert (lines + more)[|lines + more| - 1] == more[last];
    } else {
      assert lines + more == lines;
    }
  }

  /** While a function is open, the scan holds its name and the keywords of its
      lines so far, from its `def` line on, and no new report. */
  lemma {:induction false} OpenFunction(search: Search, defName: DefMatch, maxAllowed: int,
                                        lines: seq<string>, i: nat, k: nat)
    requires i <= k < |lines|
    requires defName(lines[i]).Some?
    requires forall m :: i < m <= k ==> defName(lines[m]).None?
    ensures ComplexityRun(search, defName, maxAllowed, lines[..k + 1])
         == Tally(defName(lines[i]), KeywordSum(search, lines[i..k + 1]),
                  ComplexityChecks(search, defName, maxAllowed, lines[..i + 1]))
  {
    ComplexityRunStep(search, defName, maxAllowed, lines, k);
    if k == i {
      assert lines[i..i + 1][..0] == [];
    } else {
      OpenFunction(search, defName, maxAllowed, lines, i, k - 1);
      assert lines[i..k + 1][..k - i] == lines[i..k];
    }
  }

  /** The whole life of one function: opened by the definition on line index
      `i`, closed by the next definition, on index `j`. It is reported, at line
      number `j` (the last line of its body), exactly when its name is non-empty
      and the keywords on lines `i` to `j - 1` exceed the limit; nothing else is
      reported meanwhile. */
  lemma FunctionReport(search: Search, defName: DefMatch, maxAllowed: int, lines: seq<string>, i: nat, j: nat)
    requires i < j < |lines|
    requires defName(lines[i]).Some? && defName(lines[j]).Some?
    requires forall m :: i < m < j ==> defName(lines[m]).None?
    ensures var name := defName(lines[i]).value;
            var c := KeywordSum(search, lines[i..j]);
            ComplexityChecks(search, defName, maxAllowed, lines[..j + 1])
              == ComplexityChecks(search, defName, maxAllowed, lines[..i + 1])
                 + (if name != "" && c > maxAllowed
                    then [ComplexityHit(j, name, c, maxAllowed, ComplexityDescription(c, maxAllowed))]
                    else [])
  {
    var t := ComplexityRun(search, defName, maxAllowed, lines[..j]);
    OpenFunction(search, defName, maxAllowed, lines, i, j - 1);
    assert t.current == defName(lines[i]);
    assert t.complexity == KeywordSum(search, lines[i..j]);
    assert t.found == ComplexityChecks(search, defName, maxAllowed, lines[..i + 1]);
    ComplexityRunStep(search, defName, maxAllowed, lines, j);
    assert ComplexityChecks(search, defName, maxAllowed, lines[..j + 1]) == t.found + CloseFunction(t, j + 1, maxAllowed);
  }
}
