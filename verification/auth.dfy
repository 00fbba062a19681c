/**
 * `_validate_authentication_required`: every line matching an endpoint pattern
 * is reported unless an authentication decorator appears in a small window of
 * lines around it.
 */
module AuthCheck {
  import opened Text
  import opened LineScan
  import opened Policies
  import opened Validators

  /** The decorator regex, searched case-sensitively. */
  const AuthMarker := "@login_required|@auth_required|@authenticate"

  const MissingAuthDescription := "Endpoint missing authentication requirement"

  /** First line number of the window around line `n`: five lines above. */
  function WindowStart(n: nat): (lo: nat)
    ensures 1 <= lo && (n >= 1 ==> lo <= n)
    ensures n - 5 <= lo && (lo == 1 || lo == n - 5)
  {
    if n - 5 > 1 then n - 5 else 1
  }

  /** End of the window (exclusive): one line below, never the last line of the
      file, as `range(max(1, n - 5), min(len(lines), n + 2))` gives it. */
  function WindowEnd(n: nat, lineCount: nat): (hi: nat)
    ensures hi <= lineCount && hi <= n + 2
  {
    if lineCount < n + 2 then lineCount else n + 2
  }

  /** Some line numbered `lo` to `hi - 1` holds the decorator. */
  predicate MarkerIn(search: Search, lines: seq<string>, lo: nat, hi: nat)
    requires 1 <= lo && hi <= |lines|
    decreases hi - lo
  {
    lo < hi && (search(AuthMarker, lines[lo - 1], false) || MarkerIn(search, lines, lo + 1, hi))
  }

  /** The window holds the decorator exactly when one of its lines (at index
      `lo - 1` to `hi - 2`) matches it. */
  lemma {:induction false} MarkerInSpec(search: Search, lines: seq<string>, lo: nat, hi: nat)
    requires 1 <= lo && hi <= |lines|
    ensures MarkerIn(search, lines, lo, hi) <==> exists i :: lo - 1 <= i < hi - 1 && search(AuthMarker, lines[i], false)
    decreases hi - lo
  {
    if lo < hi {
      MarkerInSpec(search, lines, lo + 1, hi);
    }
  }

  /** The decorator appears in the window around line `n`. */
  predicate MarkerNear(search: Search, lines: seq<string>, n: nat)
  {
    MarkerIn(search, lines, WindowStart(n), WindowEnd(n, |lines|))
  }

  /** An endpoint pattern matches the line and no decorator is near it. */
  function AuthKeep(search: Search, lines: seq<string>): string -> ((nat, string) -> bool)
  {
    (pattern: string) => (n: nat, line: string) => search(pattern, line, false) && !MarkerNear(search, lines, n)
  }

  function AuthMk(): string -> ((nat, string) -> Detail)
  {
    (pattern: string) => (n: nat, line: string) => AuthMiss(n, Strip(line), MissingAuthDescription)
  }

  /** The reports of the check on a file's lines. */
  function AuthChecks(search: Search, patterns: seq<string>, lines: seq<string>): seq<Detail>
  {
    ItemFindings(lines, patterns, AuthKeep(search, lines), AuthMk())
  }

  /** The window loop, which stops at the first decorator. */
  method FindAuthNear(search: Search, lines: seq<string>, lineNum: nat) returns (authFound: bool)
    ensures authFound == MarkerNear(search, lines, lineNum)
  {
    var lo := WindowStart(lineNum);
    var hi := WindowEnd(lineNum, |lines|);
    authFound := false;
    var checkLineNum := lo;
    while checkLineNum < hi
      invariant lo <= checkLineNum
      invariant MarkerIn(search, lines, lo, hi) == MarkerIn(search, lines, checkLineNum, hi)
    {
      var checkLine := lines[checkLineNum - 1];
      if search(AuthMarker, checkLine, false) {
        authFound := true;
        break;
      }
      checkLineNum := checkLineNum + 1;
    }
  }

  /** The scan of one endpoint pattern over every line. */
  method ScanEndpoint(search: Search, lines: seq<string>, pattern: string) returns (found: seq<Detail>)
    ensures found == ScanLines(lines, AuthKeep(search, lines)(pattern), AuthMk()(pattern))
  {
    found := [];
    var li := 0;
    while li < |lines|
      invariant 0 <= li <= |lines|
      invariant found == ScanLines(lines[..li], AuthKeep(search, lines)(pattern), AuthMk()(pattern))
    {
      assert lines[..li + 1][..li] == lines[..li];
      var line := lines[li];
      var lineNum := li + 1;
      if search(pattern, line, false) {
        var authFound := FindAuthNear(search, lines, lineNum);
        if !authFound {
          found := found + [AuthMiss(lineNum, Strip(line), MissingAuthDescription)];
        }
      }
      li := li + 1;
    }
    assert lines[..li] == lines;
  }

  /** `_validate_authentication_required`. */
  method ValidateAuthenticationRequired(search: Search, rule: Rule, content: string) returns (violations: seq<Detail>)
    ensures violations == AuthChecks(search, rule.endpointPatterns, Lines(content))
  {
    var lines := Lines(content);
    var patterns := rule.endpointPatterns;
    violations := [];
    var j := 0;
    while j < |patterns|
      invariant 0 <= j <= |patterns|
      invariant violations == ItemFindings(lines, patterns[..j], AuthKeep(search, lines), AuthMk())
    {
      var found := ScanEndpoint(search, lines, patterns[j]);
      ItemFindingsStep(lines, patterns, AuthKeep(search, lines), AuthMk(), j);
      violations := violations + found;
      j := j + 1;
    }
    assert patterns[..j] == patterns;
  }

  /** Every report is of a line, in range, that some endpoint pattern matches and
      near which no decorator appears; it carries the stripped line. */
  lemma AuthSound(search: Search, patterns: seq<string>, lines: seq<string>, x: Detail) returns (pattern: string)
    requires x in AuthChecks(search, patterns, lines)
    ensures pattern in patterns && x.AuthMiss? && 1 <= x.lineNumber <= |lines|
    ensures search(pattern, lines[x.lineNumber - 1], false) && !MarkerNear(search, lines, x.lineNumber)
    ensures x == AuthMiss(x.lineNumber, Strip(lines[x.lineNumber - 1]), MissingAuthDescription)
  {
    var n;
    pattern, n := ItemFindingsOrigin(lines, patterns, AuthKeep(search, lines), AuthMk(), x);
  }

  /** Every line matching an endpoint pattern with no decorator near it is
      reported. */
  lemma AuthComplete(search: Search, patterns: seq<string>, lines: seq<string>, pattern: string, n: nat)
    requires pattern in patterns && 1 <= n <= |lines|
    requires search(pattern, lines[n - 1], false) && !MarkerNear(search, lines, n)
    ensures AuthMiss(n, Strip(lines[n - 1]), MissingAuthDescription) in AuthChecks(search, patterns, lines)
  {
    assert AuthKeep(search, lines)(pattern)(n, lines[n - 1]);
    ItemFindingsComplete(lines, patterns, AuthKeep(search, lines), AuthMk(), pattern, n);
  }

  /** A decorator up to five lines above the endpoint, or on the line just below
      it, suppresses the report, provided that line is not the last of the file. */
  lemma DecoratorNearSuppresses(search: Search, patterns: seq<string>, lines: seq<string>, n: nat, c: nat)
    requires 1 <= c < |lines| && 1 <= n && n - 5 <= c <= n + 1
    requires search(AuthMarker, lines[c - 1], false)
    ensures forall k :: 0 <= k < |AuthChecks(search, patterns, lines)| ==> AuthChecks(search, patterns, lines)[k].lineNumber != n
  {
    MarkerInSpec(search, lines, WindowStart(n), WindowEnd(n, |lines|));
    assert WindowStart(n) - 1 <= c - 1 < WindowEnd(n, |lines|) - 1;
    assert MarkerNear(search, lines, n);
    forall k | 0 <= k < |AuthChecks(search, patterns, lines)|
      ensures AuthChecks(search, patterns, lines)[k].lineNumber != n
    {
      var x := AuthChecks(search, patterns, lines)[k];
      var _ := AuthSound(search, patterns, lines, x);
    }
  }

  /** Conversely, only a decorator in that range suppresses: when the window
      holds one, some line from five above the endpoint to one below it, short of
      the last line of the file, carries it. */
  lemma DecoratorOnlyNearSuppresses(search: Search, lines: seq<string>, n: nat) returns (c: nat)
    requires MarkerNear(search, lines, n)
    ensures 1 <= c < |lines| && n - 5 <= c <= n + 1
    ensures search(AuthMarker, lines[c - 1], false)
  {
    MarkerInSpec(search, lines, WindowStart(n), WindowEnd(n, |lines|));
    var i :| WindowStart(n) - 1 <= i < WindowEnd(n, |lines|) - 1 && search(AuthMarker, lines[i], false);
    c := i + 1;
  }

  /** The last line of a file is never looked at for a decorator: a one-line file
      whose line matches an endpoint pattern is reported even when that line also
      holds the decorator. */
  lemma LastLineNeverInspected(search: Search, patterns: seq<string>, line: string, pattern: string)
    requires pattern in patterns && search(pattern, line, false)
    ensures AuthMiss(1, Strip(line), MissingAuthDescription) in AuthChecks(search, patterns, [line])
  {
    AuthComplete(search, patterns, [line], pattern, 1);
  }
}
