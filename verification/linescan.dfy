/**
 * The line-oriented scan shared by the vulnerability detector and the policy
 * validators: `for line_num, line in enumerate(lines, 1): if <test>: append(...)`.
 *
 * The regular-expression engine is not modelled: `Search` stands for Python's
 * `re.search(pattern, text, flags) is not None`, so every property proved here
 * holds whatever the regex semantics are.
 */
module LineScan {

  /** `Search(pattern, text, ignoreCase)`: does `pattern` occur in `text`,
      with `re.IGNORECASE` when `ignoreCase` holds. */
  type Search = (string, string, bool) -> bool

  /** The line test `re.search(pattern, line, flags)`, ignoring the line number. */
  function SearchLine(search: Search, pattern: string, ignoreCase: bool): (nat, string) -> bool
  {
    (n: nat, line: string) => search(pattern, line, ignoreCase)
  }

  /** The 1-based numbers of the lines that `keep` accepts, in order. */
  function MatchingLines(lines: seq<string>, keep: (nat, string) -> bool): seq<nat>
  {
    if lines == [] then []
    else
      var last := |lines|;
      MatchingLines(lines[..last - 1], keep) + (if keep(last, lines[last - 1]) then [last] else [])
  }

  /** The matching line numbers are exactly the accepted lines, each once, in
      increasing order. */
  lemma {:induction false} MatchingLinesSpec(lines: seq<string>, keep: (nat, string) -> bool)
    ensures var ns := MatchingLines(lines, keep);
            && (forall k :: 0 <= k < |ns| ==> 1 <= ns[k] <= |lines| && keep(ns[k], lines[ns[k] - 1]))
            && (forall k, j :: 0 <= k < j < |ns| ==> ns[k] < ns[j])
            && (forall n :: 1 <= n <= |lines| && keep(n, lines[n - 1]) ==> n in ns)
            && |ns| <= |lines|
  {
    if lines != [] {
      var last := |lines|;
      var prefix := lines[..last - 1];
      MatchingLinesSpec(prefix, keep);
      assert forall i :: 0 <= i < last - 1 ==> prefix[i] == lines[i];
    }
  }

  /** One record `mk(n, line)` per accepted line, in line order. */
  function ScanLines<T>(lines: seq<string>, keep: (nat, string) -> bool, mk: (nat, string) -> T): seq<T>
  {
    if lines == [] then []
    else
      var last := |lines|;
      ScanLines(lines[..last - 1], keep, mk) + (if keep(last, lines[last - 1]) then [mk(last, lines[last - 1])] else [])
  }

  /** The scan holds the record of each matching line number, in order; nothing
      is merged or dropped. */
  lemma {:induction false} ScanLinesSpec<T>(lines: seq<string>, keep: (nat, string) -> bool, mk: (nat, string) -> T)
    ensures var ns := MatchingLines(lines, keep);
            var r := ScanLines(lines, keep, mk);
            && |r| == |ns|
            && forall k :: 0 <= k < |r| ==> 1 <= ns[k] <= |lines| && r[k] == mk(ns[k], lines[ns[k] - 1])
  {
    MatchingLinesSpec(lines, keep);
    if lines != [] {
      var last := |lines|;
      var prefix := lines[..last - 1];
      ScanLinesSpec(prefix, keep, mk);
      MatchingLinesSpec(prefix, keep);
      assert forall i :: 0 <= i < last - 1 ==> prefix[i] == lines[i];
    }
  }

  /** Exactly one record per accepted line: line `n` is reported at exactly one
      position `k` of the scan, and the record there is `mk(n, line n)`. */
  lemma ScanLinesExactlyOnce<T>(lines: seq<string>, keep: (nat, string) -> bool,
                                mk: (nat, string) -> T, n: nat) returns (k: nat)
    requires 1 <= n <= |lines| && keep(n, lines[n - 1])
    ensures k < |MatchingLines(lines, keep)| && MatchingLines(lines, keep)[k] == n
    ensures k < |ScanLines(lines, keep, mk)| && ScanLines(lines, keep, mk)[k] == mk(n, lines[n - 1])
    ensures forall j :: 0 <= j < |MatchingLines(lines, keep)| && j != k ==> MatchingLines(lines, keep)[j] != n
  {
    var ns := MatchingLines(lines, keep);
    MatchingLinesSpec(lines, keep);
    ScanLinesSpec(lines, keep, mk);
    assert n in ns;
    k :| 0 <= k < |ns| && ns[k] == n;
    forall j | 0 <= j < |ns| && j != k
      ensures ns[j] != n
    {
      if j < k { assert ns[j] < ns[k]; } else { assert ns[k] < ns[j]; }
    }
  }
}
