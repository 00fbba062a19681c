/**
 * `_analyze_file_for_vulnerabilities`: every signature of every class is run
 * against every line of one file, and every match becomes a finding.
 */
module Detector {
  import opened Wrappers
  import opened Text
  import opened LineScan
  import opened Findings

  function FindingMaker(md5: Md5, path: string, cls: string, e: PatternEntry): (nat, string) -> Vulnerability
  {
    (n: nat, line: string) => MakeFinding(md5, path, cls, e, n, line)
  }

  /** The findings of one signature: one per line it matches case-insensitively,
      in line order. */
  function PatternFindings(md5: Md5, search: Search, path: string, cls: string,
                           e: PatternEntry, lines: seq<string>): seq<Vulnerability>
  {
    ScanLines(lines, SearchLine(search, e.pattern, true), FindingMaker(md5, path, cls, e))
  }

  /** `v` is the finding its own signature and class give for its own line, and
      that signature matches that line. */
  ghost predicate ReportedAt(md5: Md5, search: Search, path: string, lines: seq<string>, v: Vulnerability)
  {
    && 1 <= v.lineNumber <= |lines|
    && search(v.patternMatched, lines[v.lineNumber - 1], true)
    && v == MakeFinding(md5, path, v.vulnType, EntryOf(v), v.lineNumber, lines[v.lineNumber - 1])
  }

  /** The findings of one class: its signatures in order, each over all lines. */
  function ClassFindings(md5: Md5, search: Search, path: string, cls: string,
                         entries: seq<PatternEntry>, lines: seq<string>): seq<Vulnerability>
  {
    if entries == [] then []
    else
      var last := |entries| - 1;
      ClassFindings(md5, search, path, cls, entries[..last], lines)
        + PatternFindings(md5, search, path, cls, entries[last], lines)
  }

  /** All findings of one file: class by class, signature by signature, line by line. */
  function Detect(md5: Md5, search: Search, path: string, table: seq<VulnClass>,
                  lines: seq<string>): seq<Vulnerability>
  {
    if table == [] then []
    else
      var last := |table| - 1;
      Detect(md5, search, path, table[..last], lines)
        + ClassFindings(md5, search, path, table[last].name, table[last].entries, lines)
  }

  /** Soundness within a class: each finding names the class and one of its
      signatures, which matches the reported line. */
  lemma {:induction false} ClassSound(md5: Md5, search: Search, path: string, cls: string,
                                      entries: seq<PatternEntry>, lines: seq<string>)
    ensures forall v :: v in ClassFindings(md5, search, path, cls, entries, lines) ==>
              v.vulnType == cls && EntryOf(v) in entries && ReportedAt(md5, search, path, lines, v)
  {
    if entries != [] {
      var last := |entries| - 1;
      ClassSound(md5, search, path, cls, entries[..last], lines);
      var e := entries[last];
      var block := PatternFindings(md5, search, path, cls, e, lines);
      var ns := MatchingLines(lines, SearchLine(search, e.pattern, true));
      ScanLinesSpec(lines, SearchLine(search, e.pattern, true), FindingMaker(md5, path, cls, e));
      MatchingLinesSpec(lines, SearchLine(search, e.pattern, true));
      forall v | v in block
        ensures v.vulnType == cls && EntryOf(v) in entries && ReportedAt(md5, search, path, lines, v)
      {
        var k :| 0 <= k < |block| && block[k] == v;
        assert v == MakeFinding(md5, path, cls, e, ns[k], lines[ns[k] - 1]);
      }
      forall v | v in ClassFindings(md5, search, path, cls, entries[..last], lines)
        ensures EntryOf(v) in entries
      {
        assert EntryOf(v) in entries[..last];
      }
    }
  }

  /** Soundness: every finding of a file is reported by a signature of some class
      of the table, for a line that signature matches. */
  lemma {:induction false} DetectSound(md5: Md5, search: Search, path: string, table: seq<VulnClass>,
                                       lines: seq<string>)
    ensures forall v :: v in Detect(md5, search, path, table, lines) ==>
              && ReportedAt(md5, search, path, lines, v)
              && exists c :: c in table && c.name == v.vulnType && EntryOf(v) in c.entries
  {
    if table != [] {
      var last := |table| - 1;
      DetectSound(md5, search, path, table[..last], lines);
      var c := table[last];
      ClassSound(md5, search, path, c.name, c.entries, lines);
      forall v | v in Detect(md5, search, path, table[..last], lines)
        ensures exists c :: c in table && c.name == v.vulnType && EntryOf(v) in c.entries
      {
        var c' :| c' in table[..last] && c'.name == v.vulnType && EntryOf(v) in c'.entries;
        assert c' in table;
      }
      forall v | v in ClassFindings(md5, search, path, c.name, c.entries, lines)
        ensures exists c :: c in table && c.name == v.vulnType && EntryOf(v) in c.entries
      {
        assert table[last] in table;
      }
    }
  }

  /** Every field a finding carries is determined by its signature, its class and
      its line: the identifier, the stripped line, the length-based confidence. */
  lemma DetectFields(md5: Md5, search: Search, path: string, table: seq<VulnClass>, lines: seq<string>)
    ensures forall v :: v in Detect(md5, search, path, table, lines) ==>
              && 1 <= v.lineNumber <= |lines|
              && v.filePath == path
              && v.id == VulnId(md5, path, v.lineNumber, v.vulnType)
              && |v.id| == 12
              && v.lineContent == Strip(lines[v.lineNumber - 1])
              && (v.confidence == 0.5 || v.confidence == 0.7 || v.confidence == 0.9)
              && search(v.patternMatched, lines[v.lineNumber - 1], true)
  {
    DetectSound(md5, search, path, table, lines);
  }

  /** Completeness: every (class, signature, line) match is reported. */
  lemma {:induction false} DetectComplete(md5: Md5, search: Search, path: string, table: seq<VulnClass>,
                                          lines: seq<string>, c: VulnClass, e: PatternEntry, n: nat)
    requires c in table && e in c.entries
    requires 1 <= n <= |lines| && search(e.pattern, lines[n - 1], true)
    ensures MakeFinding(md5, path, c.name, e, n, lines[n - 1]) in Detect(md5, search, path, table, lines)
  {
    var last := |table| - 1;
    if c == table[last] {
      ClassComplete(md5, search, path, c.name, c.entries, lines, e, n);
    } else {
      assert c in table[..last] by {
        var i :| 0 <= i < |table| && table[i] == c;
        assert i < last;
        assert table[..last][i] == c;
      }
      DetectComplete(md5, search, path, table[..last], lines, c, e, n);
    }
  }

  lemma {:induction false} ClassComplete(md5: Md5, search: Search, path: string, cls: string,
                                         entries: seq<PatternEntry>, lines: seq<string>,
                                         e: PatternEntry, n: nat)
    requires e in entries
    requires 1 <= n <= |lines| && search(e.pattern, lines[n - 1], true)
    ensures MakeFinding(md5, path, cls, e, n, lines[n - 1]) in ClassFindings(md5, search, path, cls, entries, lines)
  {
    var last := |entries| - 1;
    if e == entries[last] {
      var keep := SearchLine(search, e.pattern, true);
      var k := ScanLinesExactlyOnce(lines, keep, FindingMaker(md5, path, cls, e), n);
      assert PatternFindings(md5, search, path, cls, e, lines)[k] == MakeFinding(md5, path, cls, e, n, lines[n - 1]);
    } else {
      assert e in entries[..last] by {
        var i :| 0 <= i < |entries| && entries[i] == e;
        assert i < last;
        assert entries[..last][i] == e;
      }
      ClassComplete(md5, search, path, cls, entries[..last], lines, e, n);
    }
  }

  /** Scanning one more line adds that line's finding, if its signature matches it. */
  lemma PatternFindingsStep(md5: Md5, search: Search, path: string, cls: string,
                            e: PatternEntry, lines: seq<string>, li: nat)
    requires li < |lines|
    ensures PatternFindings(md5, search, path, cls, e, lines[..li + 1])
         == PatternFindings(md5, search, path, cls, e, lines[..li])
            + (if search(e.pattern, lines[li], true) then [MakeFinding(md5, path, cls, e, li + 1, lines[li])] else [])
  {
    assert lines[..li + 1][..li] == lines[..li];
  }

  /** Taking one more signature of a class appends that signature's findings. */
  lemma ClassFindingsStep(md5: Md5, search: Search, path: string, cls: string,
                          entries: seq<PatternEntry>, pi: nat, lines: seq<string>)
    requires pi < |entries|
    ensures ClassFindings(md5, search, path, cls, entries[..pi + 1], lines)
         == ClassFindings(md5, search, path, cls, entries[..pi], lines)
            + PatternFindings(md5, search, path, cls, entries[pi], lines)
  {
    assert entries[..pi + 1][..pi] == entries[..pi];
  }

  /** Taking one more class of the table appends that class's findings. */
  lemma DetectStep(md5: Md5, search: Search, path: string, table: seq<VulnClass>, ci: nat, lines: seq<string>)
    requires ci < |table|
    ensures Detect(md5, search, path, table[..ci + 1], lines)
         == Detect(md5, search, path, table[..ci], lines)
            + ClassFindings(md5, search, path, table[ci].name, table[ci].entries, lines)
  {
    assert table[..ci + 1][..ci] == table[..ci];
  }

  /** Findings are ordered class-major: scanning two tables one after the other
      gives the concatenation of their findings, with nothing merged. */
  lemma {:induction false} DetectConcat(md5: Md5, search: Search, path: string,
                                        t1: seq<VulnClass>, t2: seq<VulnClass>, lines: seq<string>)
    ensures Detect(md5, search, path, t1 + t2, lines)
         == Detect(md5, search, path, t1, lines) + Detect(md5, search, path, t2, lines)
  {
    if t2 != [] {
      var last := |t2| - 1;
      var t := t1 + t2;
      assert t[..|t| - 1] == t1 + t2[..last];
      assert t[|t| - 1] == t2[last];
      DetectConcat(md5, search, path, t1, t2[..last], lines);
      var block := ClassFindings(md5, search, path, t2[last].name, t2[last].entries, lines);
      calc {
        Detect(md5, search, path, t, lines);
        Detect(md5, search, path, t1 + t2[..last], lines) + block;
        Detect(md5, search, path, t1, lines) + Detect(md5, search, path, t2[..last], lines) + block;
        Detect(md5, search, path, t1, lines) + (Detect(md5, search, path, t2[..last], lines) + block);
        Detect(md5, search, path, t1, lines) + Detect(md5, search, path, t2, lines);
      }
    } else {
      assert t1 + t2 == t1;
    }
  }

  /** Within a class, findings are ordered signature-major, again with nothing merged. */
  lemma {:induction false} ClassConcat(md5: Md5, search: Search, path: string, cls: string,
                                       e1: seq<PatternEntry>, e2: seq<PatternEntry>, lines: seq<string>)
    ensures ClassFindings(md5, search, path, cls, e1 + e2, lines)
         == ClassFindings(md5, search, path, cls, e1, lines) + ClassFindings(md5, search, path, cls, e2, lines)
  {
    if e2 != [] {
      var last := |e2| - 1;
      var e := e1 + e2;
      assert e[..|e| - 1] == e1 + e2[..last];
      assert e[|e| - 1] == e2[last];
      ClassConcat(md5, search, path, cls, e1, e2[..last], lines);
      var block := PatternFindings(md5, search, path, cls, e2[last], lines);
      calc {
        ClassFindings(md5, search, path, cls, e, lines);
        ClassFindings(md5, search, path, cls, e1 + e2[..last], lines) + block;
        ClassFindings(md5, search, path, cls, e1, lines) + ClassFindings(md5, search, path, cls, e2[..last], lines) + block;
        ClassFindings(md5, search, path, cls, e1, lines) + (ClassFindings(md5, search, path, cls, e2[..last], lines) + block);
        ClassFindings(md5, search, path, cls, e1, lines) + ClassFindings(md5, search, path, cls, e2, lines);
      }
    } else {
      assert e1 + e2 == e1;
    }
  }

  /** The innermost loop of `_analyze_file_for_vulnerabilities`: one signature
      over every line, in line order. */
  method ScanSignature(md5: Md5, search: Search, path: string, cls: string,
                       e: PatternEntry, lines: seq<string>)
    returns (found: seq<Vulnerability>)
    ensures found == PatternFindings(md5, search, path, cls, e, lines)
  {
    found := [];
    var li := 0;
    while li < |lines|
      invariant 0 <= li <= |lines|
      invariant found == PatternFindings(md5, search, path, cls, e, lines[..li])
    {
      PatternFindingsStep(md5, search, path, cls, e, lines, li);
      if search(e.pattern, lines[li], true) {
        found := found + [MakeFinding(md5, path, cls, e, li + 1, lines[li])];
      }
      li := li + 1;
    }
    assert lines[..li] == lines;
  }

  /** `_analyze_file_for_vulnerabilities` on the already-read file: `None` stands
      for a file that could not be opened, which yields no findings. */
  method AnalyzeFileForVulnerabilities(md5: Md5, search: Search, table: seq<VulnClass>,
                                       path: string, content: Option<string>)
    returns (vulns: seq<Vulnerability>)
    ensures content.None? ==> vulns == []
    ensures content.Some? ==> vulns == Detect(md5, search, path, table, Lines(content.value))
  {
    vulns := [];
    if content.None? {
      return;
    }
    var lines := Lines(content.value);
    var ci := 0;
    while ci < |table|
      invariant 0 <= ci <= |table|
      invariant vulns == Detect(md5, search, path, table[..ci], lines)
    {
      var cls := table[ci];
      ghost var done := vulns;
      var pi := 0;
      while pi < |cls.entries|
        invariant 0 <= pi <= |cls.entries|
        invariant vulns == done + ClassFindings(md5, search, path, cls.name, cls.entries[..pi], lines)
      {
        var found := ScanSignature(md5, search, path, cls.name, cls.entries[pi], lines);
        ClassFindingsStep(md5, search, path, cls.name, cls.entries, pi, lines);
        vulns := vulns + found;
        pi := pi + 1;
      }
      assert cls.entries[..pi] == cls.entries;
      DetectStep(md5, search, path, table, ci, lines);
      ci := ci + 1;
    }
    assert table[..ci] == table;
  }
}
