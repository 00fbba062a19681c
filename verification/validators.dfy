/**
 * The list-driven validators of the policy engine: each takes a list of items
 * from a rule (patterns, function names, imports, endpoint patterns) and
 * searches every line of the file for each item in turn.
 *
 * Regular-expression search is the `Search` parameter, as in the detector.
 */
module Validators {
  import opened Text
  import opened LineScan
  import opened Policies

  // ---------------------------------------------------------------------------
  // Scans of a list of items over all lines (pattern_match, function_call,
  // import_restriction, authentication_required)
  // ---------------------------------------------------------------------------

  /** For each item in order, one report per line its test accepts, in line order. */
  function ItemFindings(lines: seq<string>, items: seq<string>,
                        keepOf: string -> ((nat, string) -> bool),
                        mkOf: string -> ((nat, string) -> Detail)): seq<Detail>
  {
    if items == [] then []
    else
      var last := |items| - 1;
      ItemFindings(lines, items[..last], keepOf, mkOf) + ScanLines(lines, keepOf(items[last]), mkOf(items[last]))
  }

  /** Taking one more item appends that item's scan. */
  lemma ItemFindingsStep(lines: seq<string>, items: seq<string>,
                         keepOf: string -> ((nat, string) -> bool),
                         mkOf: string -> ((nat, string) -> Detail), j: nat)
    requires j < |items|
    ensures ItemFindings(lines, items[..j + 1], keepOf, mkOf)
         == ItemFindings(lines, items[..j], keepOf, mkOf) + ScanLines(lines, keepOf(items[j]), mkOf(items[j]))
  {
    assert items[..j + 1][..j] == items[..j];
  }

  /** The reports for two item lists are those of the first, then those of the second. */
  lemma {:induction false} ItemFindingsConcat(lines: seq<string>, items1: seq<string>, items2: seq<string>,
                                              keepOf: string -> ((nat, string) -> bool),
                                              mkOf: string -> ((nat, string) -> Detail))
    ensures ItemFindings(lines, items1 + items2, keepOf, mkOf)
         == ItemFindings(lines, items1, keepOf, mkOf) + ItemFindings(lines, items2, keepOf, mkOf)
    decreases |items2|
  {
    if items2 != [] {
      var last := |items2| - 1;
      var all := items1 + items2;
      assert all[..|all| - 1] == items1 + items2[..last];
      assert all[|all| - 1] == items2[last];
      ItemFindingsConcat(lines, items1, items2[..last], keepOf, mkOf);
    } else {
      assert items1 + items2 == items1;
    }
  }

  /** Every report comes from one item and one line that item's test accepts. */
  lemma {:induction false} ItemFindingsOrigin(lines: seq<string>, items: seq<string>,
                                              keepOf: string -> ((nat, string) -> bool),
                                              mkOf: string -> ((nat, string) -> Detail), x: Detail)
    returns (item: string, n: nat)
    requires x in ItemFindings(lines, items, keepOf, mkOf)
    ensures item in items && 1 <= n <= |lines|
    ensures keepOf(item)(n, lines[n - 1]) && x == mkOf(item)(n, lines[n - 1])
  {
    var last := |items| - 1;
    var before := ItemFindings(lines, items[..last], keepOf, mkOf);
    var scan := ScanLines(lines, keepOf(items[last]), mkOf(items[last]));
    assert ItemFindings(lines, items, keepOf, mkOf) == before + scan;
    if x in before {
      item, n := ItemFindingsOrigin(lines, items[..last], keepOf, mkOf, x);
      assert item in items by {
        var i :| 0 <= i < last && items[..last][i] == item;
        assert items[i] == item;
      }
    } else {
      item := items[last];
      n := ScanOrigin(lines, keepOf(item), mkOf(item), x);
    }
  }

  /** Every report of a line scan comes from a line the test accepts. */
  lemma ScanOrigin(lines: seq<string>, keep: (nat, string) -> bool, mk: (nat, string) -> Detail, x: Detail)
    returns (n: nat)
    requires x in ScanLines(lines, keep, mk)
    ensures 1 <= n <= |lines| && keep(n, lines[n - 1]) && x == mk(n, lines[n - 1])
  {
    var scan := ScanLines(lines, keep, mk);
    var ns := MatchingLines(lines, keep);
    ScanLinesSpec(lines, keep, mk);
    MatchingLinesSpec(lines, keep);
    var k :| 0 <= k < |scan| && scan[k] == x;
    n := ns[k];
  }

  /** Every (item, accepted line) pair is reported. */
  lemma {:induction false} ItemFindingsComplete(lines: seq<string>, items: seq<string>,
                                                keepOf: string -> ((nat, string) -> bool),
                                                mkOf: string -> ((nat, string) -> Detail),
                                                item: string, n: nat)
    requires item in items && 1 <= n <= |lines| && keepOf(item)(n, lines[n - 1])
    ensures mkOf(item)(n, lines[n - 1]) in ItemFindings(lines, items, keepOf, mkOf)
  {
    var last := |items| - 1;
    if item == items[last] {
      var k := ScanLinesExactlyOnce(lines, keepOf(item), mkOf(item), n);
      assert ScanLines(lines, keepOf(item), mkOf(item))[k] == mkOf(item)(n, lines[n - 1]);
    } else {
      assert item in items[..last] by {
        var i :| 0 <= i < |items| && items[i] == item;
        assert items[..last][i] == item;
      }
      ItemFindingsComplete(lines, items[..last], keepOf, mkOf, item, n);
    }
  }

  /** The inner loop: one item over every line. */
  method ScanItem(lines: seq<string>, keep: (nat, string) -> bool, mk: (nat, string) -> Detail)
    returns (found: seq<Detail>)
    ensures found == ScanLines(lines, keep, mk)
  {
    found := [];
    var li := 0;
    while li < |lines|
      invariant 0 <= li <= |lines|
      invariant found == ScanLines(lines[..li], keep, mk)
    {
      assert lines[..li + 1][..li] == lines[..li];
      if keep(li + 1, lines[li]) {
        found := found + [mk(li + 1, lines[li])];
      }
      li := li + 1;
    }
    assert lines[..li] == lines;
  }

  /** The outer loop: every item in order. */
  method ScanItems(lines: seq<string>, items: seq<string>,
                   keepOf: string -> ((nat, string) -> bool),
                   mkOf: string -> ((nat, string) -> Detail))
    returns (violations: seq<Detail>)
    ensures violations == ItemFindings(lines, items, keepOf, mkOf)
  {
    violations := [];
    var j := 0;
    while j < |items|
      invariant 0 <= j <= |items|
      invariant violations == ItemFindings(lines, items[..j], keepOf, mkOf)
    {
      var found := ScanItem(lines, keepOf(items[j]), mkOf(items[j]));
      ItemFindingsStep(lines, items, keepOf, mkOf, j);
      violations := violations + found;
      j := j + 1;
    }
    assert items[..j] == items;
  }

  // ---------------------------------------------------------------------------
  // pattern_match, function_call, import_restriction
  // ---------------------------------------------------------------------------

  /** `rf"\b{func_name}\s*\("`: the name is spliced in unescaped. */
  function CallPattern(name: string): string
  {
    @"\b" + name + @"\s*\("
  }

  /** `rf"import\s+{import_name}|from\s+{import_name}\s+import"`. */
  function ImportPattern(name: string): string
  {
    @"import\s+" + name + @"|from\s+" + name + @"\s+import"
  }

  /** How a check turns a listed item into the regex it searches for: the
      pattern itself, or the call or import pattern built around the name. */
  function PatternOf(kind: ItemKind): string -> string
  {
    match kind
    case PatternMatch => (item: string) => item
    case FunctionCall => CallPattern
    case ImportRestriction => ImportPattern
  }

  function ItemDescription(kind: ItemKind, item: string): string
  {
    match kind
    case PatternMatch => "Pattern match violation: " + item
    case FunctionCall => "Restricted function call: " + item
    case ImportRestriction => "Restricted import: " + item
  }

  /** The items a rule lists for a check: `patterns`, `functions` or `imports`. */
  function ItemsOf(kind: ItemKind, rule: Rule): seq<string>
  {
    match kind
    case PatternMatch => rule.patterns
    case FunctionCall => rule.functions
    case ImportRestriction => rule.imports
  }

  /** All three checks search case-insensitively with the item's regex. */
  function KeepWith(search: Search, pattern: string -> string): string -> ((nat, string) -> bool)
  {
    (item: string) => SearchLine(search, pattern(item), true)
  }

  function ItemMk(kind: ItemKind): string -> ((nat, string) -> Detail)
  {
    (item: string) => (n: nat, line: string) => ItemHit(kind, n, Strip(line), item, ItemDescription(kind, item))
  }

  /** The reports of a list-driven check on a file's lines. */
  function ItemChecks(search: Search, kind: ItemKind, items: seq<string>, lines: seq<string>): seq<Detail>
  {
    ItemFindings(lines, items, KeepWith(search, PatternOf(kind)), ItemMk(kind))
  }

  /** `_validate_pattern_match`, `_validate_function_call` and
      `_validate_import_restriction`: the same double loop over the listed items
      and the lines, differing only in the regex and the report. */
  method ValidateItems(search: Search, kind: ItemKind, rule: Rule, content: string) returns (violations: seq<Detail>)
    ensures violations == ItemChecks(search, kind, ItemsOf(kind, rule), Lines(content))
  {
    var lines := Lines(content);
    violations := ScanItems(lines, ItemsOf(kind, rule), KeepWith(search, PatternOf(kind)), ItemMk(kind));
  }

  /** The record a check makes for an item and a line carries them both. */
  lemma ItemMkFields(kind: ItemKind, item: string, n: nat, line: string, x: Detail)
    requires x == ItemMk(kind)(item)(n, line)
    ensures x.ItemHit? && x.kind == kind && x.lineNumber == n && x.item == item
    ensures x.lineContent == Strip(line) && x.description == ItemDescription(kind, item)
  {
  }

  /** Every report names a listed item whose regex matches the reported line
      (1-based, in range), with that line stripped and the item's description. */
  lemma HitsSound(search: Search, pattern: string -> string, kind: ItemKind,
                  items: seq<string>, lines: seq<string>, x: Detail)
    requires x in ItemFindings(lines, items, KeepWith(search, pattern), ItemMk(kind))
    ensures x.ItemHit? && x.kind == kind && x.item in items && 1 <= x.lineNumber <= |lines|
    ensures search(pattern(x.item), lines[x.lineNumber - 1], true)
    ensures x == ItemHit(kind, x.lineNumber, Strip(lines[x.lineNumber - 1]), x.item, ItemDescription(kind, x.item))
  {
    var item, m := ItemFindingsOrigin(lines, items, KeepWith(search, pattern), ItemMk(kind), x);
    var line := lines[m - 1];
    assert KeepWith(search, pattern)(item)(m, line) == search(pattern(item), line, true);
    ItemMkFields(kind, item, m, line, x);
  }

  /** Every listed item whose regex matches a line is reported for that line. */
  lemma HitsComplete(search: Search, pattern: string -> string, kind: ItemKind,
                     items: seq<string>, lines: seq<string>, item: string, n: nat)
    requires item in items && 1 <= n <= |lines| && search(pattern(item), lines[n - 1], true)
    ensures ItemHit(kind, n, Strip(lines[n - 1]), item, ItemDescription(kind, item))
            in ItemFindings(lines, items, KeepWith(search, pattern), ItemMk(kind))
  {
    assert KeepWith(search, pattern)(item)(n, lines[n - 1]);
    ItemFindingsComplete(lines, items, KeepWith(search, pattern), ItemMk(kind), item, n);
  }

  /** A report of that form is present only for a listed item whose regex
      matches the line. */
  lemma HitOnlyIfMatch(search: Search, pattern: string -> string, kind: ItemKind, items: seq<string>,
                       lines: seq<string>, n: nat, content: string, item: string, description: string)
    requires ItemHit(kind, n, content, item, description) in ItemFindings(lines, items, KeepWith(search, pattern), ItemMk(kind))
    ensures && item in items && 1 <= n <= |lines| && search(pattern(item), lines[n - 1], true)
            && content == Strip(lines[n - 1]) && description == ItemDescription(kind, item)
  {
    var x := ItemHit(kind, n, content, item, description);
    var it, m := ItemFindingsOrigin(lines, items, KeepWith(search, pattern), ItemMk(kind), x);
    var line := lines[m - 1];
    ItemMkFields(kind, it, m, line, x);
    assert KeepWith(search, pattern)(it)(m, line) == search(pattern(it), line, true);
  }

  /** A report exists exactly for a listed item whose regex matches a line
      case-insensitively, and it carries that line's number and stripped text. */
  lemma HitsExact(search: Search, pattern: string -> string, kind: ItemKind, items: seq<string>,
                  lines: seq<string>, n: nat, content: string, item: string, description: string)
    ensures ItemHit(kind, n, content, item, description) in ItemFindings(lines, items, KeepWith(search, pattern), ItemMk(kind))
        <==> && item in items && 1 <= n <= |lines| && search(pattern(item), lines[n - 1], true)
             && content == Strip(lines[n - 1]) && description == ItemDescription(kind, item)
  {
    if ItemHit(kind, n, content, item, description) in ItemFindings(lines, items, KeepWith(search, pattern), ItemMk(kind)) {
      HitOnlyIfMatch(search, pattern, kind, items, lines, n, content, item, description);
    }
    if && item in items && 1 <= n <= |lines| && search(pattern(item), lines[n - 1], true)
       && content == Strip(lines[n - 1]) && description == ItemDescription(kind, item) {
      HitsComplete(search, pattern, kind, items, lines, item, n);
    }
  }

  /** The three checks, each in full: `_validate_pattern_match` reports exactly the
      (pattern, line) pairs where the pattern matches; `_validate_function_call`
      the (name, line) pairs where `\bname\s*\(` matches; `_validate_import_restriction`
      the (name, line) pairs where the import or from-import pattern matches. */
  lemma ItemChecksExact(search: Search, kind: ItemKind, items: seq<string>, lines: seq<string>,
                        n: nat, content: string, item: string, description: string)
    ensures ItemHit(kind, n, content, item, description) in ItemChecks(search, kind, items, lines)
        <==> && item in items && 1 <= n <= |lines| && search(PatternOf(kind)(item), lines[n - 1], true)
             && content == Strip(lines[n - 1]) && description == ItemDescription(kind, item)
  {
    HitsExact(search, PatternOf(kind), kind, items, lines, n, content, item, description);
  }

  /** The reports of one item form one block, in line order, and blocks follow the
      order of the list: the check on two lists is the checks on each, concatenated. */
  lemma ItemChecksConcat(search: Search, kind: ItemKind, items1: seq<string>,
                         items2: seq<string>, lines: seq<string>)
    ensures ItemChecks(search, kind, items1 + items2, lines)
         == ItemChecks(search, kind, items1, lines) + ItemChecks(search, kind, items2, lines)
  {
    ItemFindingsConcat(lines, items1, items2, KeepWith(search, PatternOf(kind)), ItemMk(kind));
  }

}
