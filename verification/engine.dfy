/**
 * `SecurityPolicyEngine`: the loaded policies keyed by id (a dictionary, so in
 * insertion order, a re-inserted id keeping its place), the default policy set,
 * loading from a parsed configuration file, evaluation of every applicable
 * policy on a file, and the summary of what is loaded.
 *
 * Reading and parsing the configuration file (YAML or JSON) is not modelled:
 * the engine receives the parsed result as a `ConfigFile`.
 */
module PolicyEngine {
  import opened Wrappers
  import opened LineScan
  import opened Policies
  import opened Complexity
  import opened Evaluation

  // ---------------------------------------------------------------------------
  // The dictionary of policies
  // ---------------------------------------------------------------------------

  /** A dictionary from policy id to policy: the entries, and the keys in
      insertion order. */
  datatype Registry = Registry(policies: map<string, SecurityPolicy>, order: seq<string>)
  {
    /** Each key is listed once, the listed keys are exactly the entries, and each
        policy is filed under its own id. */
    ghost predicate Valid()
    {
      && (forall i, j :: 0 <= i < j < |order| ==> order[i] != order[j])
      && (forall id :: id in policies <==> id in order)
      && (forall id :: id in policies ==> policies[id].id == id)
    }

    /** `self.policies.values()`, in insertion order. */
    function Values(): (ps: seq<SecurityPolicy>)
      requires Valid()
      ensures |ps| == |order|
      ensures forall k :: 0 <= k < |order| ==> ps[k] == policies[order[k]]
    {
      seq(|order|, k requires 0 <= k < |order| => policies[order[k]])
    }
  }

  const EmptyRegistry := Registry(map[], [])

  /** `self.policies[policy.id] = policy`. */
  function Put(r: Registry, p: SecurityPolicy): Registry
  {
    Registry(r.policies[p.id := p], if p.id in r.policies then r.order else r.order + [p.id])
  }

  /** Storing a policy files it under its id, leaves every other id as it was,
      keeps a replaced id in its place and appends a new one. */
  lemma PutSpec(r: Registry, p: SecurityPolicy)
    requires r.Valid()
    ensures Put(r, p).Valid()
    ensures Put(r, p).policies[p.id] == p
    ensures forall id :: id != p.id ==> (id in Put(r, p).policies <==> id in r.policies)
    ensures forall id :: id != p.id && id in r.policies ==> Put(r, p).policies[id] == r.policies[id]
    ensures p.id in r.policies ==> Put(r, p).order == r.order
    ensures p.id !in r.policies ==> Put(r, p).order == r.order + [p.id]
  {
  }

  /** Storing policies one after another. */
  function PutAll(r: Registry, ps: seq<SecurityPolicy>): Registry
    decreases |ps|
  {
    if ps == [] then r else PutAll(Put(r, ps[0]), ps[1..])
  }

  lemma {:induction false} PutAllValid(r: Registry, ps: seq<SecurityPolicy>)
    requires r.Valid()
    ensures PutAll(r, ps).Valid()
    decreases |ps|
  {
    if ps != [] {
      PutSpec(r, ps[0]);
      PutAllValid(Put(r, ps[0]), ps[1..]);
    }
  }

  /** Of several policies with the same id, the last one stored wins. */
  lemma {:induction false} PutAllLastWins(r: Registry, ps: seq<SecurityPolicy>, k: nat)
    requires k < |ps|
    requires forall m :: k < m < |ps| ==> ps[m].id != ps[k].id
    ensures ps[k].id in PutAll(r, ps).policies && PutAll(r, ps).policies[ps[k].id] == ps[k]
    decreases |ps|
  {
    if k == 0 {
      PutAllUntouched(Put(r, ps[0]), ps[1..], ps[0].id);
    } else {
      PutAllLastWins(Put(r, ps[0]), ps[1..], k - 1);
    }
  }

  /** An id none of the stored policies has keeps its entry, or its absence. */
  lemma {:induction false} PutAllUntouched(r: Registry, ps: seq<SecurityPolicy>, id: string)
    requires forall m :: 0 <= m < |ps| ==> ps[m].id != id
    ensures id in PutAll(r, ps).policies <==> id in r.policies
    ensures id in r.policies ==> PutAll(r, ps).policies[id] == r.policies[id]
    decreases |ps|
  {
    if ps != [] {
      PutAllUntouched(Put(r, ps[0]), ps[1..], id);
    }
  }

  // ---------------------------------------------------------------------------
  // Configuration files
  // ---------------------------------------------------------------------------

  /** One element of the configuration's `policies` list: a mapping, read as
      policy data, or anything else, on which building the policy fails. */
  datatype ConfigEntry = Entry(data: PolicyData) | NotAMapping

  /** A configuration file after parsing: `Unreadable` when opening or parsing
      fails or the document is not a mapping; otherwise its `policies` list
      (empty when the key is absent). */
  datatype ConfigFile = Unreadable | Loaded(entries: seq<ConfigEntry>)

  /** The loading loop: each entry is stored in turn; the first entry that is not
      a mapping raises, which ends the loading with the entries before it kept. */
  function MergeEntries(r: Registry, entries: seq<ConfigEntry>): Registry
    decreases |entries|
  {
    if entries == [] then r
    else match entries[0]
      case NotAMapping => r
      case Entry(d) => MergeEntries(Put(r, FromData(d)), entries[1..])
  }

  /** `load_policies_from_file`, after parsing; failures are logged and leave the
      policies loaded so far. */
  function LoadConfig(r: Registry, config: ConfigFile): Registry
  {
    match config
    case Unreadable => r
    case Loaded(entries) => MergeEntries(r, entries)
  }

  /** The policies a list of well-formed entries builds. */
  function PoliciesOf(entries: seq<ConfigEntry>): (ps: seq<SecurityPolicy>)
    requires forall k :: 0 <= k < |entries| ==> entries[k].Entry?
    ensures |ps| == |entries|
    ensures forall k :: 0 <= k < |entries| ==> ps[k] == FromData(entries[k].data)
  {
    seq(|entries|, k requires 0 <= k < |entries| => FromData(entries[k].data))
  }

  /** A file of well-formed entries stores every one of them, in order, over the
      policies already loaded. */
  lemma {:induction false} WellFormedConfigStoresAll(r: Registry, entries: seq<ConfigEntry>)
    requires forall k :: 0 <= k < |entries| ==> entries[k].Entry?
    ensures MergeEntries(r, entries) == PutAll(r, PoliciesOf(entries))
    decreases |entries|
  {
    if entries != [] {
      WellFormedConfigStoresAll(Put(r, FromData(entries[0].data)), entries[1..]);
      assert PoliciesOf(entries)[1..] == PoliciesOf(entries[1..]);
    }
  }

  /** An entry that is not a mapping keeps what came before it and drops
      everything after it: the loading is not all-or-nothing. */
  lemma {:induction false} MalformedEntryStopsLoading(r: Registry, before: seq<ConfigEntry>, after: seq<ConfigEntry>)
    ensures MergeEntries(r, before + [NotAMapping] + after) == MergeEntries(r, before)
    decreases |before|
  {
    if before == [] {
      assert before + [NotAMapping] + after == [NotAMapping] + after;
    } else {
      assert (before + [NotAMapping] + after)[0] == before[0];
      assert (before + [NotAMapping] + after)[1..] == before[1..] + [NotAMapping] + after;
      match before[0]
      case NotAMapping =>
      case Entry(d) =>
        MalformedEntryStopsLoading(Put(r, FromData(d)), before[1..], after);
    }
  }

  lemma {:induction false} MergeEntriesValid(r: Registry, entries: seq<ConfigEntry>)
    requires r.Valid()
    ensures MergeEntries(r, entries).Valid()
    decreases |entries|
  {
    if entries != [] && entries[0].Entry? {
      PutSpec(r, FromData(entries[0].data));
      MergeEntriesValid(Put(r, FromData(entries[0].data)), entries[1..]);
    }
  }

  // ---------------------------------------------------------------------------
  // The default policies
  // ---------------------------------------------------------------------------

  const NoHardcodedSecrets := PolicyData(
    "no_hardcoded_secrets", "No Hardcoded Secrets",
    "Prevent hardcoded passwords, API keys, and other secrets",
    Some("critical"), Some(true),
    Some([Rule(Some("pattern_match"),
               [@"password\s*=\s*[\""'][^\""']{8,}[\""']",
                @"api_key\s*=\s*[\""'][A-Za-z0-9]{20,}[\""']",
                @"secret\s*=\s*[\""'][^\""']{10,}[\""']",
                @"token\s*=\s*[\""'][A-Za-z0-9]{20,}[\""']"],
               [], [], None, [])]),
    Some([".py", ".js", ".java", ".php", ".rb", ".go"]),
    Some(["test/", "tests/", "spec/"]))

  const SqlInjectionPrevention := PolicyData(
    "sql_injection_prevention", "SQL Injection Prevention",
    "Prevent SQL injection vulnerabilities",
    Some("high"), Some(true),
    Some([Rule(Some("pattern_match"),
               [@"execute\s*\(\s*[\""'].*\+.*[\""']\s*\)",
                @"query\s*\(\s*[\""'].*\+.*[\""']\s*\)",
                @"sql\s*=\s*[\""'].*\+.*[\""']"],
               [], [], None, [])]),
    Some([".py", ".java", ".php", ".rb"]),
    None)

  const InsecureCrypto := PolicyData(
    "insecure_crypto", "Insecure Cryptography",
    "Prevent use of insecure cryptographic functions",
    Some("medium"), Some(true),
    Some([Rule(Some("function_call"), [], ["md5", "sha1", "des", "rc4"], [], None, [])]),
    Some([".py", ".js", ".java", ".php", ".rb", ".go"]),
    None)

  const AuthenticationEndpoints := PolicyData(
    "authentication_endpoints", "Authentication Required",
    "Ensure authentication is required for sensitive endpoints",
    Some("high"), Some(true),
    Some([Rule(Some("authentication_required"), [], [], [], None,
               [@"@app\.route\s*\(\s*[\""']/admin",
                @"@app\.route\s*\(\s*[\""']/api/user",
                @"@app\.route\s*\(\s*[\""']/dashboard"])]),
    Some([".py", ".js", ".java", ".php", ".rb"]),
    None)

  /** `_load_default_policies`' list, as policies. */
  const DefaultPolicies: seq<SecurityPolicy> :=
    [FromData(NoHardcodedSecrets), FromData(SqlInjectionPrevention),
     FromData(InsecureCrypto), FromData(AuthenticationEndpoints)]

  // ---------------------------------------------------------------------------
  // Evaluation of all policies
  // ---------------------------------------------------------------------------

  /** `evaluate_policies`' result: the violations of each applicable policy, in
      the order of the policies. */
  function EvaluateAll(search: Search, defName: DefMatch, ps: seq<SecurityPolicy>, path: string, content: string)
    : seq<Violation>
  {
    if ps == [] then []
    else
      var p := ps[|ps| - 1];
      EvaluateAll(search, defName, ps[..|ps| - 1], path, content)
        + (if IsApplicable(search, p, path) then PolicyViolations(search, defName, p, path, content) else [])
  }

  lemma EvaluateAllStep(search: Search, defName: DefMatch, ps: seq<SecurityPolicy>, path: string, content: string, i: nat)
    requires i < |ps|
    ensures EvaluateAll(search, defName, ps[..i + 1], path, content)
         == EvaluateAll(search, defName, ps[..i], path, content)
            + (if IsApplicable(search, ps[i], path) then PolicyViolations(search, defName, ps[i], path, content) else [])
  {
    assert ps[..i + 1][..i] == ps[..i];
  }

  /** Every violation comes from an applicable policy of the list and is one of
      that policy's violations; it carries that policy's id. */
  lemma {:induction false} EvaluateAllSound(search: Search, defName: DefMatch, ps: seq<SecurityPolicy>, path: string,
                                            content: string, x: Violation)
    returns (p: SecurityPolicy)
    requires x in EvaluateAll(search, defName, ps, path, content)
    ensures p in ps && IsApplicable(search, p, path) && x in PolicyViolations(search, defName, p, path, content)
    ensures x.policyId == p.id && x.filePath == path
  {
    var last := |ps| - 1;
    if x in EvaluateAll(search, defName, ps[..last], path, content) {
      p := EvaluateAllSound(search, defName, ps[..last], path, content, x);
    } else {
      p := ps[last];
      var _ := PolicyViolationSound(search, defName, p, path, content, x);
    }
  }

  /** Every violation of an applicable policy of the list is reported. */
  lemma {:induction false} EvaluateAllComplete(search: Search, defName: DefMatch, ps: seq<SecurityPolicy>, path: string,
                                               content: string, k: nat, x: Violation)
    requires k < |ps| && IsApplicable(search, ps[k], path)
    requires x in PolicyViolations(search, defName, ps[k], path, content)
    ensures x in EvaluateAll(search, defName, ps, path, content)
  {
    var last := |ps| - 1;
    if k < last {
      assert ps[..last][k] == ps[k];
      EvaluateAllComplete(search, defName, ps[..last], path, content, k, x);
    }
  }

  // ---------------------------------------------------------------------------
  // The summary
  // ---------------------------------------------------------------------------

  /** `get_policy_summary`'s result. */
  datatype PolicySummary = PolicySummary(
    totalPolicies: nat,
    enabledPolicies: nat,
    disabledPolicies: int,
    severityDistribution: map<string, nat>)

  /** The number of enabled policies. */
  function EnabledCount(ps: seq<SecurityPolicy>): (n: nat)
    ensures n <= |ps|
  {
    if ps == [] then 0 else EnabledCount(ps[..|ps| - 1]) + (if ps[|ps| - 1].enabled then 1 else 0)
  }

  /** The enabled policies counted per severity. */
  function Distribution(ps: seq<SecurityPolicy>): map<string, nat>
  {
    if ps == [] then map[]
    else
      var m := Distribution(ps[..|ps| - 1]);
      var p := ps[|ps| - 1];
      if p.enabled then m[p.severity := (if p.severity in m then m[p.severity] else 0) + 1] else m
  }

  function SummaryOf(ps: seq<SecurityPolicy>): PolicySummary
  {
    PolicySummary(|ps|, EnabledCount(ps), |ps| - EnabledCount(ps), Distribution(ps))
  }

  /** How many enabled policies have severity `s`: the reference the
      distribution is checked against. */
  function CountSeverity(ps: seq<SecurityPolicy>, s: string): nat
  {
    if ps == [] then 0
    else CountSeverity(ps[..|ps| - 1], s) + (if ps[|ps| - 1].enabled && ps[|ps| - 1].severity == s then 1 else 0)
  }

  /** The distribution holds exactly the severities of enabled policies, each
      with the number of enabled policies having it. */
  lemma {:induction false} DistributionSpec(ps: seq<SecurityPolicy>)
    ensures forall s :: s in Distribution(ps) <==> CountSeverity(ps, s) > 0
    ensures forall s :: s in Distribution(ps) ==> Distribution(ps)[s] == CountSeverity(ps, s)
  {
    if ps != [] {
      DistributionSpec(ps[..|ps| - 1]);
    }
  }

  /** The severities of enabled policies, in the order they first appear (the
      key order of the distribution dictionary). */
  function SeverityOrder(ps: seq<SecurityPolicy>): seq<string>
  {
    if ps == [] then []
    else
      var keys := SeverityOrder(ps[..|ps| - 1]);
      var p := ps[|ps| - 1];
      if p.enabled && p.severity !in keys then keys + [p.severity] else keys
  }

  /** The sum of `m`'s entries for `keys`. */
  function SumOver(m: map<string, nat>, keys: seq<string>): nat
  {
    if keys == [] then 0
    else SumOver(m, keys[..|keys| - 1]) + (if keys[|keys| - 1] in m then m[keys[|keys| - 1]] else 0)
  }

  /** Changing an entry not listed does not change the sum. */
  lemma {:induction false} SumOverOther(m: map<string, nat>, keys: seq<string>, s: string, v: nat)
    requires s !in keys
    ensures SumOver(m[s := v], keys) == SumOver(m, keys)
  {
    if keys != [] {
      SumOverOther(m, keys[..|keys| - 1], s, v);
    }
  }

  /** Adding one to an entry listed exactly once adds one to the sum. */
  lemma {:induction false} SumOverIncrement(m: map<string, nat>, keys: seq<string>, s: string)
    requires s in m
    requires forall i, j :: 0 <= i < j < |keys| ==> keys[i] != keys[j]
    requires s in keys
    ensures SumOver(m[s := m[s] + 1], keys) == SumOver(m, keys) + 1
  {
    var last := |keys| - 1;
    var prefix := keys[..last];
    if keys[last] == s {
      assert s !in prefix;
      SumOverOther(m, prefix, s, m[s] + 1);
    } else {
      assert s in prefix by {
        var i :| 0 <= i < |keys| && keys[i] == s;
        assert prefix[i] == s;
      }
      SumOverIncrement(m, prefix, s);
    }
  }

  /** The first-appearance order lists each severity of the distribution once,
      and the counts over it add up to the number of enabled policies. */
  lemma {:induction false} DistributionTotal(ps: seq<SecurityPolicy>)
    ensures var keys := SeverityOrder(ps);
            && (forall i, j :: 0 <= i < j < |keys| ==> keys[i] != keys[j])
            && (forall s :: s in keys <==> s in Distribution(ps))
            && SumOver(Distribution(ps), keys) == EnabledCount(ps)
  {
    if ps != [] {
      var prefix := ps[..|ps| - 1];
      var p := ps[|ps| - 1];
      var m := Distribution(prefix);
      var keys := SeverityOrder(prefix);
      DistributionTotal(prefix);
      if p.enabled {
        if p.severity in keys {
          SumOverIncrement(m, keys, p.severity);
        } else {
          SumOverOther(m, keys, p.severity, 1);
          assert (keys + [p.severity])[..|keys|] == keys;
        }
      }
    }
  }

  /** The summary's counts are consistent: enabled and disabled add up to the
      total, neither is negative, and the distribution accounts for every enabled
      policy. */
  lemma SummaryConsistent(ps: seq<SecurityPolicy>)
    ensures var sm := SummaryOf(ps);
            && sm.enabledPolicies + sm.disabledPolicies == sm.totalPolicies
            && 0 <= sm.disabledPolicies
            && SumOver(sm.severityDistribution, SeverityOrder(ps)) == sm.enabledPolicies
  {
    DistributionTotal(ps);
  }

  // ---------------------------------------------------------------------------
  // The engine
  // ---------------------------------------------------------------------------

  class SecurityPolicyEngine {
    /** `self.policies`: the entries and their insertion order. */
    var policies: map<string, SecurityPolicy>
    var order: seq<string>
    /** `self.config_path`. */
    const configPath: Option<string>

    function State(): Registry
      reads this
    {
      Registry(policies, order)
    }

    ghost predicate Valid()
      reads this
    {
      State().Valid()
    }

    /** `self.policies.values()`. */
    function Values(): seq<SecurityPolicy>
      reads this
      requires Valid()
    {
      State().Values()
    }

    /** `SecurityPolicyEngine(policy_config_path)`: a non-empty path loads that
        file only; otherwise the defaults are loaded. */
    constructor(configPath: Option<string>, config: ConfigFile)
      ensures Valid() && this.configPath == configPath
      ensures State() == (if configPath.Some? && configPath.value != ""
                          then LoadConfig(EmptyRegistry, config)
                          else PutAll(EmptyRegistry, DefaultPolicies))
    {
      this.configPath := configPath;
      policies := map[];
      order := [];
      new;
      if configPath.Some? && configPath.value != "" {
        LoadPoliciesFromFile(config);
      } else {
        LoadDefaultPolicies();
      }
    }

    /** `self.policies[policy.id] = policy`. */
    method Store(policy: SecurityPolicy)
      modifies this
      requires Valid()
      ensures Valid() && State() == Put(old(State()), policy)
    {
      PutSpec(State(), policy);
      if policy.id !in policies {
        order := order + [policy.id];
      }
      policies := policies[policy.id := policy];
    }

    /** `_load_default_policies`. */
    method LoadDefaultPolicies()
      modifies this
      requires Valid()
      ensures Valid() && State() == PutAll(old(State()), DefaultPolicies)
    {
      var defaults := DefaultPolicies;
      var i := 0;
      while i < |defaults|
        invariant 0 <= i <= |defaults|
        invariant Valid()
        invariant PutAll(State(), defaults[i..]) == PutAll(old(State()), DefaultPolicies)
      {
        assert defaults[i..][1..] == defaults[i + 1..];
        Store(defaults[i]);
        i := i + 1;
      }
    }

    /** `load_policies_from_file`, given the parsed file. */
    method LoadPoliciesFromFile(config: ConfigFile)
      modifies this
      requires Valid()
      ensures Valid() && State() == LoadConfig(old(State()), config)
    {
      if config.Unreadable? {
        return;
      }
      var policiesData := config.entries;
      var i := 0;
      while i < |policiesData|
        invariant 0 <= i <= |policiesData|
        invariant Valid()
        invariant MergeEntries(State(), policiesData[i..]) == LoadConfig(old(State()), config)
      {
        assert policiesData[i..][1..] == policiesData[i + 1..];
        match policiesData[i]
        case NotAMapping =>
          return;
        case Entry(policyData) =>
          Store(FromData(policyData));
        i := i + 1;
      }
    }

    /** `evaluate_policies`. */
    method EvaluatePolicies(search: Search, defName: DefMatch, filePath: string, fileContent: string)
      returns (violations: seq<Violation>)
      requires Valid()
      ensures violations == EvaluateAll(search, defName, Values(), filePath, fileContent)
    {
      var ps := Values();
      violations := [];
      var i := 0;
      while i < |ps|
        invariant 0 <= i <= |ps|
        invariant violations == EvaluateAll(search, defName, ps[..i], filePath, fileContent)
      {
        var policy := ps[i];
        EvaluateAllStep(search, defName, ps, filePath, fileContent, i);
        if IsApplicable(search, policy, filePath) {
          var policyViolations := EvaluatePolicy(search, defName, policy, filePath, fileContent);
          violations := violations + policyViolations;
        }
        i := i + 1;
      }
      assert ps[..i] == ps;
    }

    /** `get_policy_summary`. */
    method GetPolicySummary() returns (summary: PolicySummary)
      requires Valid()
      ensures summary == SummaryOf(Values())
    {
      var ps := Values();
      var enabledCount := CountEnabled(ps);
      var severityCounts := CountSeverities(ps);
      EntryCount(State());
      summary := PolicySummary(|policies|, enabledCount, |policies| - enabledCount, severityCounts);
    }
  }

  /** `sum(1 for p in self.policies.values() if p.enabled)`. */
  method CountEnabled(ps: seq<SecurityPolicy>) returns (enabledCount: nat)
    ensures enabledCount == EnabledCount(ps)
  {
    enabledCount := 0;
    var i := 0;
    while i < |ps|
      invariant 0 <= i <= |ps|
      invariant enabledCount == EnabledCount(ps[..i])
    {
      assert ps[..i + 1][..i] == ps[..i];
      if ps[i].enabled {
        enabledCount := enabledCount + 1;
      }
      i := i + 1;
    }
    assert ps[..i] == ps;
  }

  /** The severity-counting loop of `get_policy_summary`. */
  method CountSeverities(ps: seq<SecurityPolicy>) returns (severityCounts: map<string, nat>)
    ensures severityCounts == Distribution(ps)
  {
    severityCounts := map[];
    var i := 0;
    while i < |ps|
      invariant 0 <= i <= |ps|
      invariant severityCounts == Distribution(ps[..i])
    {
      assert ps[..i + 1][..i] == ps[..i];
      var policy := ps[i];
      if policy.enabled {
        var severity := policy.severity;
        severityCounts := severityCounts[severity := (if severity in severityCounts then severityCounts[severity] else 0) + 1];
      }
      i := i + 1;
    }
    assert ps[..i] == ps;
  }

  /** `len(self.policies)` is the number of keys listed. */
  lemma EntryCount(r: Registry)
    requires r.Valid()
    ensures |r.policies| == |r.order|
  {
    assert r.policies.Keys == set id | id in r.order;
    DistinctCardinality(r.order);
  }

  /** A list without repetitions has as many elements as its set. */
  lemma {:induction false} DistinctCardinality(s: seq<string>)
    requires forall i, j :: 0 <= i < j < |s| ==> s[i] != s[j]
    ensures |set x | x in s| == |s|
  {
    if s != [] {
      var last := |s| - 1;
      DistinctCardinality(s[..last]);
      assert (set x | x in s) == (set x | x in s[..last]) + {s[last]};
      assert s[last] !in s[..last];
    }
  }

  /** A policy that does not apply to a file reports nothing on it: in a valid
      dictionary no violation carries the id of a policy that does not apply. */
  lemma InapplicablePolicySilent(search: Search, defName: DefMatch, r: Registry, path: string, content: string, id: string)
    requires r.Valid() && id in r.policies && !IsApplicable(search, r.policies[id], path)
    ensures forall x :: x in EvaluateAll(search, defName, r.Values(), path, content) ==> x.policyId != id
  {
    forall x | x in EvaluateAll(search, defName, r.Values(), path, content)
      ensures x.policyId != id
    {
      var p := EvaluateAllSound(search, defName, r.Values(), path, content, x);
      var k :| 0 <= k < |r.Values()| && r.Values()[k] == p;
      assert p == r.policies[r.order[k]];
    }
  }

  /** Storing a policy under a new id appends it to the values. */
  lemma PutFresh(r: Registry, p: SecurityPolicy)
    requires r.Valid() && p.id !in r.policies
    ensures Put(r, p).Valid() && Put(r, p).Values() == r.Values() + [p]
  {
    PutSpec(r, p);
    var r' := Put(r, p);
    forall k | 0 <= k < |r.order|
      ensures r'.Values()[k] == r.Values()[k]
    {
      assert r.order[k] in r.policies;
    }
  }

  /** The policies have distinct ids, none of them already in the dictionary. */
  predicate FreshIds(r: Registry, ps: seq<SecurityPolicy>)
  {
    && (forall i, j :: 0 <= i < j < |ps| ==> ps[i].id != ps[j].id)
    && (forall i :: 0 <= i < |ps| ==> ps[i].id !in r.policies)
  }

  /** After the first of several fresh policies is stored, the rest are fresh. */
  lemma FreshTail(r: Registry, ps: seq<SecurityPolicy>)
    requires ps != [] && FreshIds(r, ps)
    ensures FreshIds(Put(r, ps[0]), ps[1..])
  {
    var rest := ps[1..];
    forall i, j | 0 <= i < j < |rest|
      ensures rest[i].id != rest[j].id
    {
      assert rest[i] == ps[i + 1] && rest[j] == ps[j + 1];
    }
    forall i | 0 <= i < |rest|
      ensures rest[i].id !in Put(r, ps[0]).policies
    {
      assert rest[i] == ps[i + 1];
      assert ps[0].id != ps[i + 1].id;
    }
  }

  lemma AppendFirst<T>(a: seq<T>, b: seq<T>, c: seq<T>, ps: seq<T>)
    requires ps != [] && b == a + [ps[0]] && c == b + ps[1..]
    ensures c == a + ps
  {
    assert ps == [ps[0]] + ps[1..];
  }

  /** Storing policies with distinct ids, none of them loaded yet, appends them
      to the values in list order. */
  lemma {:induction false} PutAllFresh(r: Registry, ps: seq<SecurityPolicy>)
    requires r.Valid() && FreshIds(r, ps)
    ensures PutAll(r, ps).Valid() && PutAll(r, ps).Values() == r.Values() + ps
    decreases |ps|
  {
    if ps == [] {
      assert r.Values() + ps == r.Values();
    } else {
      var r' := Put(r, ps[0]);
      PutFresh(r, ps[0]);
      FreshTail(r, ps);
      PutAllFresh(r', ps[1..]);
      var a, b := r.Values(), r'.Values();
      var c := PutAll(r', ps[1..]).Values();
      assert PutAll(r, ps) == PutAll(r', ps[1..]);
      AppendFirst(a, b, c, ps);
    }
  }

  /** The ids of the policies, in list order. */
  function Ids(ps: seq<SecurityPolicy>): (ids: seq<string>)
    ensures |ids| == |ps|
    ensures forall k :: 0 <= k < |ps| ==> ids[k] == ps[k].id
  {
    seq(|ps|, k requires 0 <= k < |ps| => ps[k].id)
  }

  /** In a well-formed dictionary the listed keys are the ids of the values. */
  lemma OrderIsIds(r: Registry)
    requires r.Valid()
    ensures r.order == Ids(r.Values())
  {
    forall k | 0 <= k < |r.order|
      ensures r.order[k] == Ids(r.Values())[k]
    {
      assert r.order[k] in r.policies;
    }
  }

  /** Loading fresh policies with distinct ids into an empty dictionary lists
      them in order under their own ids. */
  lemma LoadedInOrder(ps: seq<SecurityPolicy>)
    requires FreshIds(EmptyRegistry, ps)
    ensures PutAll(EmptyRegistry, ps).Valid()
    ensures PutAll(EmptyRegistry, ps).Values() == ps
    ensures PutAll(EmptyRegistry, ps).order == Ids(ps)
  {
    PutAllFresh(EmptyRegistry, ps);
    assert EmptyRegistry.Values() == [];
    OrderIsIds(PutAll(EmptyRegistry, ps));
  }

  /** The ids, flags and severities of the four default policies. */
  lemma DefaultFacts()
    ensures |DefaultPolicies| == 4
    ensures Ids(DefaultPolicies)
         == ["no_hardcoded_secrets", "sql_injection_prevention", "insecure_crypto", "authentication_endpoints"]
    ensures forall k :: 0 <= k < 4 ==> DefaultPolicies[k].enabled
    ensures DefaultPolicies[0].severity == "critical" && DefaultPolicies[1].severity == "high"
    ensures DefaultPolicies[2].severity == "medium" && DefaultPolicies[3].severity == "high"
  {
  }

  /** Loading the defaults into an empty engine files the four policies under
      four different ids, in list order. */
  lemma DefaultsLoaded()
    ensures PutAll(EmptyRegistry, DefaultPolicies).Valid()
    ensures PutAll(EmptyRegistry, DefaultPolicies).order
         == ["no_hardcoded_secrets", "sql_injection_prevention", "insecure_crypto", "authentication_endpoints"]
    ensures PutAll(EmptyRegistry, DefaultPolicies).Values() == DefaultPolicies
  {
    DefaultFacts();
    var ps := DefaultPolicies;
    assert FreshIds(EmptyRegistry, ps) by {
      assert forall i :: 0 <= i < |ps| ==> ps[i].id == Ids(ps)[i];
    }
    LoadedInOrder(ps);
  }

  /** Four enabled policies of severities critical, high, medium and high. */
  lemma SummaryOfFour(ps: seq<SecurityPolicy>)
    requires |ps| == 4 && forall k :: 0 <= k < 4 ==> ps[k].enabled
    requires ps[0].severity == "critical" && ps[1].severity == "high"
    requires ps[2].severity == "medium" && ps[3].severity == "high"
    ensures SummaryOf(ps) == PolicySummary(4, 4, 0, map["critical" := 1, "high" := 2, "medium" := 1])
  {
    assert ps[..1] == [ps[0]];
    assert ps[..2][..1] == ps[..1] && ps[..3][..2] == ps[..2] && ps[..4] == ps;
    assert ps[..2][1] == ps[1] && ps[..3][2] == ps[2];
    assert EnabledCount(ps[..1]) == 1;
    assert EnabledCount(ps[..2]) == 2;
    assert EnabledCount(ps[..3]) == 3;
    assert Distribution(ps[..1]) == map["critical" := 1];
    assert Distribution(ps[..2]) == map["critical" := 1, "high" := 1];
    assert Distribution(ps[..3]) == map["critical" := 1, "high" := 1, "medium" := 1];
  }

  /** The summary of the defaults: four enabled policies, one critical, two
      high, one medium. */
  lemma DefaultSummary()
    ensures PutAll(EmptyRegistry, DefaultPolicies).Valid()
    ensures SummaryOf(PutAll(EmptyRegistry, DefaultPolicies).Values())
         == PolicySummary(4, 4, 0, map["critical" := 1, "high" := 2, "medium" := 1])
  {
    DefaultsLoaded();
    DefaultFacts();
    SummaryOfFour(DefaultPolicies);
  }
}
