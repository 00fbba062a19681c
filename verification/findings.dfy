/**
 * The vulnerability signature table of the enhanced security agent, the record
 * produced for each match, its confidence heuristic and its identifier.
 */
module Findings {
  import opened Text

  /** One signature: a regular expression with the severity and description it reports. */
  datatype PatternEntry = PatternEntry(pattern: string, severity: string, description: string)

  /** A vulnerability class and its signatures, in table order. */
  datatype VulnClass = VulnClass(name: string, entries: seq<PatternEntry>)

  /** The fixed signature table, in the insertion order of the source's dictionary. */
  const VulnerabilityPatterns: seq<VulnClass> := [
    VulnClass("sql_injection", [
      PatternEntry(@"execute\s*\(\s*[\""'].*\+.*[\""']\s*\)", "high",
                   "Potential SQL injection via string concatenation"),
      PatternEntry(@"query\s*\(\s*f[\""'].*\{.*\}.*[\""']\s*\)", "medium",
                   "Potential SQL injection via f-string formatting")
    ]),
    VulnClass("xss", [
      PatternEntry(@"innerHTML\s*=\s*.*\+", "high",
                   "Potential XSS via innerHTML manipulation"),
      PatternEntry(@"document\.write\s*\(\s*.*\+", "high",
                   "Potential XSS via document.write")
    ]),
    VulnClass("hardcoded_secrets", [
      PatternEntry(@"password\s*=\s*[\""'][^\""']{8,}[\""']", "critical",
                   "Hardcoded password detected"),
      PatternEntry(@"api_key\s*=\s*[\""'][A-Za-z0-9]{20,}[\""']", "critical",
                   "Hardcoded API key detected")
    ]),
    VulnClass("insecure_crypto", [
      PatternEntry(@"md5\s*\(", "medium", "Insecure MD5 hash function usage"),
      PatternEntry(@"sha1\s*\(", "medium", "Insecure SHA1 hash function usage")
    ])
  ]

  /** A finding, with the fields of the source's vulnerability dictionary. */
  datatype Vulnerability = Vulnerability(
    id: string,
    vulnType: string,
    severity: string,
    description: string,
    filePath: string,
    lineNumber: nat,
    lineContent: string,
    patternMatched: string,
    confidence: real)

  /** The signature a finding was reported for. */
  function EntryOf(v: Vulnerability): PatternEntry
  {
    PatternEntry(v.patternMatched, v.severity, v.description)
  }

  /** Confidence is a proxy for the specificity of the pattern: only its length
      counts, and the matched line plays no part. */
  function Confidence(pattern: string, line: string): (c: real)
    ensures c == 0.5 || c == 0.7 || c == 0.9
    ensures c == 0.9 <==> |pattern| > 50
    ensures c == 0.7 <==> 30 < |pattern| <= 50
    ensures c == 0.5 <==> |pattern| <= 30
  {
    if |pattern| > 50 then 0.9 else if |pattern| > 30 then 0.7 else 0.5
  }

  /** No signature of the built-in table is longer than 50 characters, so its
      findings carry confidence 0.5 or 0.7, never 0.9. */
  lemma TableConfidences(line: string)
    ensures forall c, e :: c in VulnerabilityPatterns && e in c.entries ==>
              Confidence(e.pattern, line) < 0.9
  {
    forall c, e | c in VulnerabilityPatterns && e in c.entries
      ensures |e.pattern| <= 50
    {
      assert c == VulnerabilityPatterns[0] || c == VulnerabilityPatterns[1]
          || c == VulnerabilityPatterns[2] || c == VulnerabilityPatterns[3];
    }
  }

  predicate IsLowerHex(c: char)
  {
    '0' <= c <= '9' || 'a' <= c <= 'f'
  }

  /** What `hashlib.md5(...).hexdigest()` returns: 32 lower-case hex digits. */
  type HexDigest = s: string | |s| == 32 && forall k :: 0 <= k < |s| ==> IsLowerHex(s[k])
    witness "00000000000000000000000000000000"

  /** The digest function itself is not modelled; any function of the key will do. */
  type Md5 = string -> HexDigest

  /** The hashed text `f"{file_path}:{line_num}:{vuln_type}"`. */
  function VulnKey(path: string, line: nat, vulnType: string): string
  {
    path + ":" + NatToString(line) + ":" + vulnType
  }

  /** The identifier: the first 12 hex digits of the digest of the key, so a
      function of (path, line, class) alone. */
  function VulnId(md5: Md5, path: string, line: nat, vulnType: string): (id: string)
    ensures |id| == 12
    ensures forall k :: 0 <= k < |id| ==> IsLowerHex(id[k])
    ensures id <= md5(VulnKey(path, line, vulnType))
  {
    md5(VulnKey(path, line, vulnType))[..12]
  }

  /** In `a + ":" + b` with no colon in `b`, no colon follows the one after `a`. */
  lemma ColonFreeTail(a: string, b: string)
    requires ':' !in b
    ensures (a + ":" + b)[|a|] == ':'
    ensures forall k :: |a| < k < |a| + 1 + |b| ==> (a + ":" + b)[k] != ':'
  {
    var s := a + ":" + b;
    forall k | |a| < k < |s|
      ensures s[k] != ':'
    {
      assert s[k] == b[k - |a| - 1];
    }
  }

  /** `a + ":" + b` can be cut at its last colon when `b` holds none. */
  lemma SplitAtLastColon(a1: string, b1: string, a2: string, b2: string)
    requires ':' !in b1 && ':' !in b2
    requires a1 + ":" + b1 == a2 + ":" + b2
    ensures a1 == a2 && b1 == b2
  {
    var s := a1 + ":" + b1;
    ColonFreeTail(a1, b1);
    ColonFreeTail(a2, b2);
    assert |a1| == |a2|;
    assert a1 == s[..|a1|] == a2;
    assert b1 == s[|a1| + 1..] == b2;
  }

  /** Distinct (path, line, class) triples have distinct keys whenever class names
      hold no colon, as every class of the built-in table does (ClassNamesColonFree);
      the paths themselves may contain colons. */
  lemma VulnKeyInjective(p1: string, n1: nat, t1: string, p2: string, n2: nat, t2: string)
    requires ':' !in t1 && ':' !in t2
    requires VulnKey(p1, n1, t1) == VulnKey(p2, n2, t2)
    ensures p1 == p2 && n1 == n2 && t1 == t2
  {
    var d1, d2 := NatToString(n1), NatToString(n2);
    assert ':' !in d1 by { assert forall k :: 0 <= k < |d1| ==> IsDigit(d1[k]); }
    assert ':' !in d2 by { assert forall k :: 0 <= k < |d2| ==> IsDigit(d2[k]); }
    SplitAtLastColon(p1 + ":" + d1, t1, p2 + ":" + d2, t2);
    SplitAtLastColon(p1, d1, p2, d2);
    NatToStringInjective(n1, n2);
  }

  lemma ClassNamesColonFree()
    ensures forall c :: c in VulnerabilityPatterns ==> ':' !in c.name
  {
    assert VulnerabilityPatterns[0].name == "sql_injection";
    assert VulnerabilityPatterns[1].name == "xss";
    assert VulnerabilityPatterns[2].name == "hardcoded_secrets";
    assert VulnerabilityPatterns[3].name == "insecure_crypto";
    forall c | c in VulnerabilityPatterns
      ensures ':' !in c.name
    {
      assert c == VulnerabilityPatterns[0] || c == VulnerabilityPatterns[1]
          || c == VulnerabilityPatterns[2] || c == VulnerabilityPatterns[3];
    }
  }

  /** The record `_analyze_file_for_vulnerabilities` appends for signature `e` of
      class `cls` matching line `n` of file `path`. */
  function MakeFinding(md5: Md5, path: string, cls: string, e: PatternEntry, n: nat, line: string): Vulnerability
  {
    Vulnerability(VulnId(md5, path, n, cls), cls, e.severity, e.description, path, n,
                  Strip(line), e.pattern, Confidence(e.pattern, line))
  }
}
