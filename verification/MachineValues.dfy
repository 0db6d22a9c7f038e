/** Checking machine values against the default values, and merging what passed. */
module MachineValues {
  import opened Prelude
  import opened ConfigTree

  const ANY_MAPPING_PATHS: set<Path> := {
    ["agentDefaults", "config"],
    ["agents", "config"],
    ["agentDefaults", "webhooks", "routes"],
    ["agents", "webhooks", "routes"],
    ["agentDefaults", "directEgress", "ssh", "hosts"],
    ["agents", "directEgress", "ssh", "hosts"]
  }

  const ANY_LIST_PATHS: set<Path> := {
    ["policy", "sourceControl", "github", "allowedRepos"],
    ["policy", "sourceControl", "github", "forkRequiredOwners"],
    ["policy", "sourceControl", "github", "forkOwners"],
    ["policy", "workManagement", "jira", "allowedProjects"],
    ["policy", "workManagement", "jira", "allowedAssignees"],
    ["policy", "workManagement", "jira", "allowedIssueTypes"],
    ["policy", "workManagement", "linear", "allowedTeams"],
    ["policy", "workManagement", "linear", "allowedAssignees"],
    ["policy", "workManagement", "pagerduty", "allowedServiceIds"],
    ["policy", "dataAccess", "grafana", "deniedDatasourceUids"],
    ["policy", "dataAccess", "grafana", "deniedDatasourceNames"],
    ["policy", "dataAccess", "elastic", "deniedIndexPatterns"],
    ["policy", "notion", "allowedParentPageIds"],
    ["egress", "wildcardDomains"],
    ["egress", "exactDomains"],
    ["egress", "internalAllowedCIDRs"],
    ["agentDefaults", "directEgress", "slackFQDNs"],
    ["agentDefaults", "directEgress", "edgeTtsFQDNs"],
    ["agents", "directEgress", "slackFQDNs"],
    ["agents", "directEgress", "edgeTtsFQDNs"]
  }

  /** Where the digits at the end of `s` begin. */
  function DigitsFrom(s: string): (n: nat)
    ensures n <= |s| && forall i | n <= i < |s| :: IsDigit(s[i])
  {
    if s == "" || !IsDigit(s[|s| - 1]) then |s| else DigitsFrom(s[..|s| - 1])
  }

  /** Drops a list index like `[3]` from the end. */
  function WithoutIndex(part: string): string {
    if part == "" || part[|part| - 1] != ']' then part
    else
      var body := part[..|part| - 1];
      var n := DigitsFrom(body);
      if n < |body| && n > 0 && body[n - 1] == '[' then body[..n - 1] else part
  }

  /** The pattern's `$` also matches in front of a final line feed. */
  function SchemaPart(part: string): string {
    if part != "" && part[|part| - 1] == '\n' then WithoutIndex(part[..|part| - 1]) + "\n" else WithoutIndex(part)
  }

  function SchemaPath(path: Path): (r: Path)
    ensures |r| == |path| && forall i | 0 <= i < |path| :: r[i] == SchemaPart(path[i])
  {
    if path == [] then [] else [SchemaPart(path[0])] + SchemaPath(path[1..])
  }

  datatype Problem =
    // what the check of one value finds
    | ExpectedMapping | ExpectedStrings | UnknownKey | ExpectedList | ExpectedBoolean | ExpectedInteger | ExpectedString
    // what the cross-field phase finds
    | BadStatus | MissingCapacity(provider: string)
    | BadName | DuplicateName(first: nat) | ConsecutiveHyphens
    | DuplicateToolsets | BadRouteName | UnsupportedProvider | ExpectedMappings | LogDelivery | EmptyHostName

  datatype Fault = Fault(path: Path, problem: Problem)

  predicate IsStringList(value: Tree) {
    value.List? && forall i | 0 <= i < |value.items| :: value.items[i].Str?
  }

  /** The faults of a value that is not looked into. */
  function ScalarFaults(value: Tree, template: Tree, path: Path): set<Fault> {
    match template
    case List(_) => if value.List? then {} else {Fault(path, ExpectedList)}
    case Bool(_) => if value.Bool? then {} else {Fault(path, ExpectedBoolean)}
    case Int(_) => if value.Int? then {} else {Fault(path, ExpectedInteger)}
    case Str(_) => if value.Str? then {} else {Fault(path, ExpectedString)}
    case _ => {}
  }

  /** Everything `validate_value` reports, in whatever order the keys are visited. */
  function Faults(value: Tree, template: Tree, path: Path): set<Fault>
    decreases value, 2
  {
    if SchemaPath(path) in ANY_MAPPING_PATHS then
      if value.Map? then {} else {Fault(path, ExpectedMapping)}
    else if SchemaPath(path) in ANY_LIST_PATHS then
      if IsStringList(value) then {} else {Fault(path, ExpectedStrings)}
    else if template.Map? then
      if !value.Map? then {Fault(path, ExpectedMapping)}
      else EntryFaults(value, template, path, value.entries.Keys)
    else ScalarFaults(value, template, path)
  }

  function EntryFaults(value: Tree, template: Tree, path: Path, keys: set<string>): set<Fault>
    requires value.Map? && template.Map?
    decreases value, 1
  {
    set k, f | k in keys && k in value.entries && f in KeyFaults(value, template, path, k) :: f
  }

  function KeyFaults(value: Tree, template: Tree, path: Path, k: string): set<Fault>
    requires value.Map? && template.Map? && k in value.entries
    decreases value, 0
  {
    if k !in template.entries then {Fault(path + [k], UnknownKey)}
    else Faults(value.entries[k], template.entries[k], path + [k])
  }

  ghost predicate Conforms(value: Tree, template: Tree, path: Path) {
    Faults(value, template, path) == {}
  }

  /** The shared list of errors that checking appends to. */
  class Validator {
    var errors: seq<Fault>

    constructor ()
      ensures errors == []
    {
      errors := [];
    }

    method Report(fault: Fault)
      modifies this
      ensures errors == old(errors) + [fault]
    {
      errors := errors + [fault];
    }

    /** Appends exactly the faults of the value. */
    method ValidateValue(value: Tree, template: Tree, path: Path)
      modifies this
      ensures old(errors) <= errors
      ensures Reported(errors[|old(errors)|..]) == Faults(value, template, path)
      decreases value, 2
    {
      var normalized := SchemaPath(path);
      if normalized in ANY_MAPPING_PATHS {
        if !value.Map? {
          Report(Fault(path, ExpectedMapping));
        }
      } else if normalized in ANY_LIST_PATHS {
        if !IsStringList(value) {
          Report(Fault(path, ExpectedStrings));
        }
      } else if template.Map? {
        if !value.Map? {
          Report(Fault(path, ExpectedMapping));
        } else {
          ValidateEntries(value, template, path);
        }
      } else if template.List? {
        if !value.List? {
          Report(Fault(path, ExpectedList));
        }
      } else if template.Bool? {
        if !value.Bool? {
          Report(Fault(path, ExpectedBoolean));
        }
      } else if template.Int? {
        if !value.Int? {
          Report(Fault(path, ExpectedInteger));
        }
      } else if template.Str? && !value.Str? {
        Report(Fault(path, ExpectedString));
      }
    }

    method ValidateEntries(value: Tree, template: Tree, path: Path)
      requires value.Map? && template.Map?
      modifies this
      ensures old(errors) <= errors
      ensures Reported(errors[|old(errors)|..]) == EntryFaults(value, template, path, value.entries.Keys)
      decreases value, 1
    {
      var unvisited := value.entries.Keys;
      while unvisited != {}
        invariant unvisited <= value.entries.Keys
        invariant old(errors) <= errors
        invariant Reported(errors[|old(errors)|..]) ==
          EntryFaults(value, template, path, value.entries.Keys - unvisited)
        decreases |unvisited|
      {
        var key :| key in unvisited;
        ghost var before := errors;
        if key !in template.entries {
          Report(Fault(path + [key], UnknownKey));
        } else {
          ValidateValue(value.entries[key], template.entries[key], path + [key]);
        }
        ghost var visited := value.entries.Keys - unvisited;
        unvisited := unvisited - {key};
        assert value.entries.Keys - unvisited == visited + {key};
        assert errors[|old(errors)|..] == before[|old(errors)|..] + errors[|before|..];
        OneMoreKey(value, template, path, visited, key);
      }
      assert value.entries.Keys - unvisited == value.entries.Keys;
    }
  }

  ghost function Reported(errors: seq<Fault>): set<Fault> {
    set f | f in errors
  }

  lemma OneMoreKey(value: Tree, template: Tree, path: Path, keys: set<string>, key: string)
    requires value.Map? && template.Map? && key in value.entries
    ensures EntryFaults(value, template, path, keys + {key}) ==
      EntryFaults(value, template, path, keys) + KeyFaults(value, template, path, key)
  {
    forall f | f in KeyFaults(value, template, path, key)
      ensures f in EntryFaults(value, template, path, keys + {key}) {
      assert key in keys + {key};
    }
  }

  lemma UnknownKeyIsAFault(value: Tree, template: Tree, path: Path, k: string)
    requires value.Map? && template.Map? && k in value.entries
    ensures k !in template.entries ==> Fault(path + [k], UnknownKey) in KeyFaults(value, template, path, k)
  {
  }

  lemma NonMappingIsAFault(value: Tree, template: Tree, path: Path)
    requires template.Map? && SchemaPath(path) !in ANY_MAPPING_PATHS && SchemaPath(path) !in ANY_LIST_PATHS
    ensures !value.Map? ==> Fault(path, ExpectedMapping) in Faults(value, template, path)
  {
  }

  lemma ConformsByKey(value: Tree, template: Tree, path: Path)
    requires value.Map? && template.Map?
    requires SchemaPath(path) !in ANY_MAPPING_PATHS && SchemaPath(path) !in ANY_LIST_PATHS
    ensures Conforms(value, template, path) <==>
      forall k | k in value.entries ::
        k in template.entries && Conforms(value.entries[k], template.entries[k], path + [k])
  {
    if Conforms(value, template, path) {
      forall k | k in value.entries
        ensures k in template.entries && Conforms(value.entries[k], template.entries[k], path + [k])
      {
        forall f ensures f !in KeyFaults(value, template, path, k) {
          assert f !in EntryFaults(value, template, path, value.entries.Keys);
        }
        assert KeyFaults(value, template, path, k) == {};
        UnknownKeyIsAFault(value, template, path, k);
      }
    }
    if forall k | k in value.entries ::
      k in template.entries && Conforms(value.entries[k], template.entries[k], path + [k]) {
      forall k | k in value.entries ensures KeyFaults(value, template, path, k) == {} {
        assert Conforms(value.entries[k], template.entries[k], path + [k]);
      }
      assert EntryFaults(value, template, path, value.entries.Keys) == {};
    }
  }

  /* What is reported, place by place */

  predicate Opened(place: Path, template: Option<Tree>) {
    SchemaPath(place) !in ANY_MAPPING_PATHS && SchemaPath(place) !in ANY_LIST_PATHS && template.Some? &&
      template.value.Map?
  }

  /** The value has `t`, and every place above it is an unexempt mapping of the template. */
  ghost predicate Looked(value: Tree, template: Tree, path: Path, t: Path) {
    GetPath(value, t).Some? && forall n | 0 <= n < |t| :: Opened(path + t[..n], GetPath(template, t[..n]))
  }

  /** What is wrong with a value at one place, without looking into it. */
  function ProblemAt(place: Path, template: Option<Tree>, value: Tree): Option<Problem> {
    if template.None? then Some(UnknownKey)
    else if SchemaPath(place) in ANY_MAPPING_PATHS then (if value.Map? then None else Some(ExpectedMapping))
    else if SchemaPath(place) in ANY_LIST_PATHS then (if IsStringList(value) then None else Some(ExpectedStrings))
    else
      match (template.value, value)
      case (Map(_), Map(_)) => None
      case (Map(_), _) => Some(ExpectedMapping)
      case (List(_), List(_)) => None
      case (List(_), _) => Some(ExpectedList)
      case (Bool(_), Bool(_)) => None
      case (Bool(_), _) => Some(ExpectedBoolean)
      case (Int(_), Int(_)) => None
      case (Int(_), _) => Some(ExpectedInteger)
      case (Str(_), Str(_)) => None
      case (Str(_), _) => Some(ExpectedString)
      case _ => None
  }

  ghost predicate FaultAt(value: Tree, template: Tree, path: Path, t: Path, f: Fault) {
    && Looked(value, template, path, t)
    && f.path == path + t
    && ProblemAt(path + t, GetPath(template, t), GetPath(value, t).value) == Some(f.problem)
  }

  /** The faults reported are exactly the problems at the places looked at: none is missed, none invented. */
  lemma {:induction false} FaultsExactly(value: Tree, template: Tree, path: Path, f: Fault)
    ensures f in Faults(value, template, path) <==> exists t :: FaultAt(value, template, path, t, f)
    decreases value
  {
    RootFault(value, template, path, f);
    if Opened(path, Some(template)) && value.Map? {
      forall k | k in value.entries
        ensures f in KeyFaults(value, template, path, k) <==> exists u :: FaultAt(value, template, path, [k] + u, f)
      {
        if k in template.entries {
          FaultsExactly(value.entries[k], template.entries[k], path + [k], f);
          forall u {
            FaultBelow(value, template, path, k, u, f);
          }
        } else {
          UnknownFault(value, template, path, k, f);
        }
      }
      ByKey(value, template, path, f);
    } else {
      forall t | FaultAt(value, template, path, t, f) ensures t == [] {
        ClosedRoot(value, template, path, t);
      }
    }
  }

  lemma RootFault(value: Tree, template: Tree, path: Path, f: Fault)
    ensures Looked(value, template, path, [])
    ensures FaultAt(value, template, path, [], f) <==>
      f.path == path && ProblemAt(path, Some(template), value) == Some(f.problem)
    ensures !(Opened(path, Some(template)) && value.Map?) ==>
      (f in Faults(value, template, path) <==> FaultAt(value, template, path, [], f))
  {
    assert path + [] == path;
  }

  lemma ClosedRoot(value: Tree, template: Tree, path: Path, t: Path)
    requires Looked(value, template, path, t) && !(Opened(path, Some(template)) && value.Map?)
    ensures t == []
  {
    assert t[..0] == [] && path + t[..0] == path;
    assert t != [] ==> Opened(path + t[..0], GetPath(template, t[..0]));
  }

  lemma LookedBelow(value: Tree, template: Tree, path: Path, k: string, u: Path)
    requires Opened(path, Some(template)) && value.Map? && k in value.entries && k in template.entries
    ensures Looked(value, template, path, [k] + u) <==> Looked(value.entries[k], template.entries[k], path + [k], u)
  {
    var t := [k] + u;
    assert t[1..] == u;
    forall n | 0 <= n < |u|
      ensures Opened(path + t[..n + 1], GetPath(template, t[..n + 1])) <==>
        Opened(path + [k] + u[..n], GetPath(template.entries[k], u[..n]))
    {
      assert t[..n + 1] == [k] + u[..n] && t[..n + 1][1..] == u[..n];
      assert path + t[..n + 1] == path + [k] + u[..n];
    }
    assert t[..0] == [] && path + t[..0] == path;
    if Looked(value, template, path, t) {
      forall n | 0 <= n < |u| ensures Opened(path + [k] + u[..n], GetPath(template.entries[k], u[..n])) {
        assert Opened(path + t[..n + 1], GetPath(template, t[..n + 1]));
      }
    }
    if Looked(value.entries[k], template.entries[k], path + [k], u) {
      forall n | 0 <= n < |t| ensures Opened(path + t[..n], GetPath(template, t[..n])) {
        if n > 0 {
          assert Opened(path + [k] + u[..n - 1], GetPath(template.entries[k], u[..n - 1]));
        }
      }
    }
  }

  lemma FaultBelow(value: Tree, template: Tree, path: Path, k: string, u: Path, f: Fault)
    requires Opened(path, Some(template)) && value.Map? && k in value.entries && k in template.entries
    ensures FaultAt(value, template, path, [k] + u, f) <==>
      FaultAt(value.entries[k], template.entries[k], path + [k], u, f)
  {
    LookedBelow(value, template, path, k, u);
    assert ([k] + u)[1..] == u;
    assert path + ([k] + u) == path + [k] + u;
  }

  lemma UnknownFault(value: Tree, template: Tree, path: Path, k: string, f: Fault)
    requires Opened(path, Some(template)) && value.Map? && k in value.entries && k !in template.entries
    ensures f == Fault(path + [k], UnknownKey) <==> exists u :: FaultAt(value, template, path, [k] + u, f)
  {
    assert GetPath(template, [k]).None?;
    GetOne(value, k);
    if f == Fault(path + [k], UnknownKey) {
      assert [k] + [] == [k];
      forall n | 0 <= n < |[k]| ensures Opened(path + [k][..n], GetPath(template, [k][..n])) {
        assert [k][..n] == [] && path + [] == path;
      }
      assert FaultAt(value, template, path, [k] + [], f);
    }
    forall u | FaultAt(value, template, path, [k] + u, f) ensures u == [] {
      var t := [k] + u;
      assert t[..1] == [k];
      assert u != [] ==> Opened(path + t[..1], GetPath(template, t[..1]));
    }
    assert [k] + [] == [k];
  }

  lemma ByKey(value: Tree, template: Tree, path: Path, f: Fault)
    requires Opened(path, Some(template)) && value.Map?
    requires forall k | k in value.entries ::
      f in KeyFaults(value, template, path, k) <==> exists u :: FaultAt(value, template, path, [k] + u, f)
    ensures f in Faults(value, template, path) <==> exists t :: FaultAt(value, template, path, t, f)
  {
    RootFault(value, template, path, f);
    FaultsOfEntries(value, template, path, f);
    if k :| k in value.entries && f in KeyFaults(value, template, path, k) {
      var u :| FaultAt(value, template, path, [k] + u, f);
    }
    if t :| FaultAt(value, template, path, t, f) {
      assert t != [];
      assert t == [t[0]] + t[1..];
      assert f in KeyFaults(value, template, path, t[0]);
    }
  }

  lemma FaultsOfEntries(value: Tree, template: Tree, path: Path, f: Fault)
    requires Opened(path, Some(template)) && value.Map?
    ensures f in Faults(value, template, path) <==>
      exists k :: k in value.entries && f in KeyFaults(value, template, path, k)
  {
    var faults := EntryFaults(value, template, path, value.entries.Keys);
    assert Faults(value, template, path) == faults;
    if f in faults {
      var k :| k in value.entries.Keys && k in value.entries && f in KeyFaults(value, template, path, k);
    }
    if k :| k in value.entries && f in KeyFaults(value, template, path, k) {
      assert k in value.entries.Keys;
    }
  }

  /* Merging */

  /** Two values that conform to a template at a path merge to one that does. */
  lemma {:induction false} MergeConforms(base: Tree, override: Tree, template: Tree, path: Path)
    requires Conforms(base, template, path) && Conforms(override, template, path)
    ensures Conforms(DeepMerge(base, override), template, path)
    decreases override
  {
    if SchemaPath(path) !in ANY_MAPPING_PATHS && SchemaPath(path) !in ANY_LIST_PATHS
       && template.Map? && base.Map? && override.Map? {
      ConformsByKey(base, template, path);
      ConformsByKey(override, template, path);
      var merged := DeepMerge(base, override);
      forall k | k in merged.entries
        ensures k in template.entries && Conforms(merged.entries[k], template.entries[k], path + [k])
      {
        if k in base.entries && k in override.entries {
          MergeConforms(base.entries[k], override.entries[k], template.entries[k], path + [k]);
        }
      }
      ConformsByKey(merged, template, path);
    }
  }

  /**
   Merge soundness: what passes the check against a template that passes its own check still
   passes after it is merged over that template.
   */
  lemma MergedOverrideConforms(template: Tree, override: Tree, path: Path)
    requires Conforms(template, template, path) && Conforms(override, template, path)
    ensures Conforms(DeepMerge(template, override), template, path)
  {
    MergeConforms(template, override, template, path);
  }

  /* Agents: checked under a path of their own, merged over the agent defaults */

  lemma EachOfConcat(f: string -> string, p: Path, q: Path, a: Path, b: Path, c: Path)
    requires |a| == |p| && forall i | 0 <= i < |p| :: a[i] == f(p[i])
    requires |b| == |q| && forall i | 0 <= i < |q| :: b[i] == f(q[i])
    requires |c| == |p + q| && forall i | 0 <= i < |p + q| :: c[i] == f((p + q)[i])
    ensures c == a + b
  {
  }

  lemma SchemaPathConcat(p: Path, q: Path)
    ensures SchemaPath(p + q) == SchemaPath(p) + SchemaPath(q)
  {
    EachOfConcat(SchemaPart, p, q, SchemaPath(p), SchemaPath(q), SchemaPath(p + q));
  }

  lemma {:induction false} DigitsFromEnd(head: string, digits: string)
    requires head != "" && !IsDigit(head[|head| - 1]) && AllDigits(digits)
    ensures DigitsFrom(head + digits) == |head|
    decreases |digits|
  {
    if digits == "" {
      assert head + digits == head;
    } else {
      assert (head + digits)[..|head + digits| - 1] == head + digits[..|digits| - 1];
      DigitsFromEnd(head, digits[..|digits| - 1]);
    }
  }

  /** An indexed part is read as its name. */
  lemma IndexIsDropped(name: string, digits: string)
    requires digits != "" && AllDigits(digits)
    ensures SchemaPart(name + "[" + digits + "]") == name
  {
    var head := name + "[";
    var part := name + "[" + digits + "]";
    DigitsFromEnd(head, digits);
    assert part == head + digits + "]" && part[..|part| - 1] == head + digits;
    assert (head + digits)[|head| - 1] == '[' && (head + digits)[..|head| - 1] == name;
  }

  const MAPPING_TAILS: set<Path> := {["config"], ["webhooks", "routes"], ["directEgress", "ssh", "hosts"]}
  const LIST_TAILS: set<Path> := {["directEgress", "slackFQDNs"], ["directEgress", "edgeTtsFQDNs"]}

  lemma HeadAndTail(head: string, tail: Path, path: Path)
    ensures [head] + tail == path <==> path != [] && path[0] == head && path[1..] == tail
  {
    assert ([head] + tail)[1..] == tail;
    assert path != [] ==> path == [path[0]] + path[1..];
  }

  lemma MappingTails(head: string, tail: Path)
    requires head == "agentDefaults" || head == "agents"
    ensures [head] + tail in ANY_MAPPING_PATHS <==> tail in MAPPING_TAILS
  {
    forall path | path in ANY_MAPPING_PATHS ensures path[0] == head ==> path[1..] in MAPPING_TAILS {
      assert path[1..] == ["config"] || path[1..] == ["webhooks", "routes"] ||
        path[1..] == ["directEgress", "ssh", "hosts"];
    }
    HeadAndTail(head, tail, [head] + tail);
    assert ["agentDefaults"] + ["config"] == ["agentDefaults", "config"];
    assert ["agentDefaults"] + ["webhooks", "routes"] == ["agentDefaults", "webhooks", "routes"];
    assert ["agentDefaults"] + ["directEgress", "ssh", "hosts"] == ["agentDefaults", "directEgress", "ssh", "hosts"];
    assert ["agents"] + ["config"] == ["agents", "config"];
    assert ["agents"] + ["webhooks", "routes"] == ["agents", "webhooks", "routes"];
    assert ["agents"] + ["directEgress", "ssh", "hosts"] == ["agents", "directEgress", "ssh", "hosts"];
  }

  lemma ListTails(head: string, tail: Path)
    requires head == "agentDefaults" || head == "agents"
    ensures [head] + tail in ANY_LIST_PATHS <==> tail in LIST_TAILS
  {
    forall path | path in ANY_LIST_PATHS ensures path[0] == head ==> path[1..] in LIST_TAILS {
      if path[0] == head {
        assert path[1..] == ["directEgress", "slackFQDNs"] || path[1..] == ["directEgress", "edgeTtsFQDNs"];
      }
    }
    HeadAndTail(head, tail, [head] + tail);
    assert ["agentDefaults"] + ["directEgress", "slackFQDNs"] == ["agentDefaults", "directEgress", "slackFQDNs"];
    assert ["agentDefaults"] + ["directEgress", "edgeTtsFQDNs"] == ["agentDefaults", "directEgress", "edgeTtsFQDNs"];
    assert ["agents"] + ["directEgress", "slackFQDNs"] == ["agents", "directEgress", "slackFQDNs"];
    assert ["agents"] + ["directEgress", "edgeTtsFQDNs"] == ["agents", "directEgress", "edgeTtsFQDNs"];
  }

  /** Every exemption below `agentDefaults` has its counterpart below `agents`. */
  lemma ExemptionsArePaired(tail: Path)
    ensures ["agentDefaults"] + tail in ANY_MAPPING_PATHS <==> ["agents"] + tail in ANY_MAPPING_PATHS
    ensures ["agentDefaults"] + tail in ANY_LIST_PATHS <==> ["agents"] + tail in ANY_LIST_PATHS
  {
    MappingTails("agentDefaults", tail);
    MappingTails("agents", tail);
    ListTails("agentDefaults", tail);
    ListTails("agents", tail);
  }

  predicate IsAgentPart(part: string) {
    SchemaPart(part) == "agents"
  }

  lemma SamePlace(part: string, tail: Path)
    requires IsAgentPart(part)
    ensures SchemaPath(["agentDefaults"] + tail) in ANY_MAPPING_PATHS <==>
      SchemaPath([part] + tail) in ANY_MAPPING_PATHS
    ensures SchemaPath(["agentDefaults"] + tail) in ANY_LIST_PATHS <==> SchemaPath([part] + tail) in ANY_LIST_PATHS
  {
    assert "agentDefaults"[|"agentDefaults"| - 1] == 's';
    SchemaPathConcat(["agentDefaults"], tail);
    SchemaPathConcat([part], tail);
    assert SchemaPath(["agentDefaults"]) == ["agentDefaults"] && SchemaPath([part]) == ["agents"];
    ExemptionsArePaired(SchemaPath(tail));
  }

  lemma SameByKey(value: Tree, template: Tree, here: Path, there: Path)
    requires value.Map? && template.Map?
    requires SchemaPath(here) !in ANY_MAPPING_PATHS && SchemaPath(here) !in ANY_LIST_PATHS
    requires SchemaPath(there) !in ANY_MAPPING_PATHS && SchemaPath(there) !in ANY_LIST_PATHS
    requires forall k | k in value.entries && k in template.entries ::
      Conforms(value.entries[k], template.entries[k], here + [k]) <==>
        Conforms(value.entries[k], template.entries[k], there + [k])
    ensures Conforms(value, template, here) <==> Conforms(value, template, there)
  {
    ConformsByKey(value, template, here);
    ConformsByKey(value, template, there);
  }

  /** Where a value is not looked into, only the kind of place matters. */
  lemma SameOutright(value: Tree, template: Tree, here: Path, there: Path)
    requires SchemaPath(here) in ANY_MAPPING_PATHS <==> SchemaPath(there) in ANY_MAPPING_PATHS
    requires SchemaPath(here) in ANY_LIST_PATHS <==> SchemaPath(there) in ANY_LIST_PATHS
    requires SchemaPath(here) in ANY_MAPPING_PATHS || SchemaPath(here) in ANY_LIST_PATHS || !template.Map? ||
      !value.Map?
    ensures Conforms(value, template, here) <==> Conforms(value, template, there)
  {
  }

  /** A value conforms below `agentDefaults` exactly when it conforms at the same place of an agent. */
  lemma {:induction false} ConformsAtBothPlaces(value: Tree, template: Tree, part: string, tail: Path)
    requires IsAgentPart(part)
    ensures Conforms(value, template, ["agentDefaults"] + tail) <==> Conforms(value, template, [part] + tail)
    decreases value
  {
    var here, there := ["agentDefaults"] + tail, [part] + tail;
    SamePlace(part, tail);
    if SchemaPath(here) !in ANY_MAPPING_PATHS && SchemaPath(here) !in ANY_LIST_PATHS && template.Map? && value.Map? {
      forall k | k in value.entries && k in template.entries
        ensures Conforms(value.entries[k], template.entries[k], here + [k])
                <==> Conforms(value.entries[k], template.entries[k], there + [k])
      {
        ConformsAtBothPlaces(value.entries[k], template.entries[k], part, tail + [k]);
        assert here + [k] == ["agentDefaults"] + (tail + [k]) && there + [k] == [part] + (tail + [k]);
      }
      SameByKey(value, template, here, there);
    } else {
      SameOutright(value, template, here, there);
    }
  }

  /** An agent is checked against the agent defaults and a name of its own. */
  function AgentTemplate(defaults: Object): Tree {
    Map(defaults["name" := Str("")])
  }

  lemma AgentRootIsPlain(part: string)
    requires part == "agentDefaults" || IsAgentPart(part)
    ensures SchemaPath([part]) !in ANY_MAPPING_PATHS && SchemaPath([part]) !in ANY_LIST_PATHS
  {
    assert |SchemaPath([part])| == 1;
  }

  /** What conforms to the agent defaults conforms to the template of an agent. */
  lemma DefaultsConformAsAgent(value: Tree, defaults: Object, part: string)
    requires IsAgentPart(part) && ("name" in defaults ==> defaults["name"].Str?)
    requires Conforms(value, Map(defaults), ["agentDefaults"])
    ensures Conforms(value, AgentTemplate(defaults), [part])
  {
    AgentRootIsPlain("agentDefaults");
    AgentRootIsPlain(part);
    ConformsAtBothPlaces(value, Map(defaults), part, []);
    assert ["agentDefaults"] + [] == ["agentDefaults"] && [part] + [] == [part];
    ConformsByKey(value, Map(defaults), [part]);
    forall k | k in value.entries
      ensures k in AgentTemplate(defaults).entries
              && Conforms(value.entries[k], AgentTemplate(defaults).entries[k], [part] + [k])
    {
      if k == "name" {
        StringTemplates(value.entries[k], defaults[k], Str(""), [part] + [k]);
      }
    }
    ConformsByKey(value, AgentTemplate(defaults), [part]);
  }

  lemma StringTemplates(value: Tree, a: Tree, b: Tree, path: Path)
    requires a.Str? && b.Str?
    ensures Conforms(value, a, path) <==> Conforms(value, b, path)
  {
  }

  /**
   The three layers of an agent, merged: default values, the machine's agent defaults, and the
   agent's own entry. What passed the check layer by layer conforms as a whole.
   */
  lemma LayeredAgentConforms(defaults: Object, machine: Tree, agent: Tree, part: string)
    requires IsAgentPart(part) && ("name" in defaults ==> defaults["name"].Str?)
    requires Conforms(Map(defaults), Map(defaults), ["agentDefaults"])
    requires Conforms(machine, Map(defaults), ["agentDefaults"])
    requires Conforms(agent, AgentTemplate(defaults), [part])
    ensures Conforms(DeepMerge(DeepMerge(Map(defaults), machine), agent), AgentTemplate(defaults), [part])
  {
    MergedOverrideConforms(Map(defaults), machine, ["agentDefaults"]);
    DefaultsConformAsAgent(DeepMerge(Map(defaults), machine), defaults, part);
    MergeConforms(DeepMerge(Map(defaults), machine), agent, AgentTemplate(defaults), [part]);
  }

  /* The cross-field phase reads merged values without looking at their types again */

  /** `value.get(k, {}).get(k', {})....get(leaf)`; None when something on the way has no `get`. */
  function ReadLeaf(value: Tree, keys: Path): Option<Tree>
    requires keys != []
    decreases |keys|
  {
    if !value.Map? then None
    else if |keys| == 1 then Some(GetOr(value.entries, keys[0], Null))
    else ReadLeaf(GetOr(value.entries, keys[0], Map(map[])), keys[1..])
  }

  /** Along the keys, the last one aside, the template has mappings or nothing. */
  predicate OpenTemplate(template: Tree, keys: Path) {
    keys == [] || (template.Map? &&
      (keys[0] in template.entries && |keys| > 1 ==> OpenTemplate(template.entries[keys[0]], keys[1..])))
  }

  ghost predicate Checked(path: Path) {
    SchemaPath(path) !in ANY_MAPPING_PATHS && SchemaPath(path) !in ANY_LIST_PATHS
  }

  /** No place on the way is exempt from the check. */
  ghost predicate CheckedAlong(path: Path, keys: Path) {
    forall n | 0 <= n < |keys| :: Checked(path + keys[..n])
  }

  lemma OneKeyFurther(path: Path, keys: Path, n: nat)
    requires n < |keys|
    ensures path + keys[..n + 1] == path + [keys[0]] + keys[1..][..n]
  {
    assert keys[..n + 1] == [keys[0]] + keys[1..][..n];
  }

  lemma CheckedFurther(path: Path, keys: Path)
    requires keys != [] && CheckedAlong(path, keys)
    ensures Checked(path) && CheckedAlong(path + [keys[0]], keys[1..])
  {
    assert Checked(path + keys[..0]) && path + keys[..0] == path;
    forall n | 0 <= n < |keys[1..]| ensures Checked(path + [keys[0]] + keys[1..][..n]) {
      assert Checked(path + keys[..n + 1]);
      OneKeyFurther(path, keys, n);
    }
  }

  lemma {:induction false} EmptyChain(keys: Path)
    requires keys != []
    ensures ReadLeaf(Map(map[]), keys) == Some(Null)
    decreases |keys|
  {
    if |keys| > 1 {
      EmptyChain(keys[1..]);
    }
  }

  /** A conforming value can be read along every chain that the template leaves open. */
  lemma {:induction false} ChainIsSafe(value: Tree, template: Tree, path: Path, keys: Path)
    requires keys != []
    requires Conforms(value, template, path) && OpenTemplate(template, keys) && CheckedAlong(path, keys)
    ensures ReadLeaf(value, keys).Some?
    decreases |keys|
  {
    var k, rest := keys[0], keys[1..];
    CheckedFurther(path, keys);
    ConformsByKeyIfChecked(value, template, path);
    if rest != [] {
      if k !in value.entries {
        EmptyChain(rest);
      } else {
        ChainIsSafe(value.entries[k], template.entries[k], path + [k], rest);
      }
    }
  }

  /** Along the keys the template has mappings or nothing, and at their end a string or nothing. */
  predicate StringLeaf(template: Tree, keys: Path)
    requires keys != []
  {
    && template.Map?
    && (keys[0] in template.entries ==>
          if |keys| == 1 then template.entries[keys[0]].Str? else StringLeaf(template.entries[keys[0]], keys[1..]))
  }

  /** Where the template has a string, a conforming value is read as a string or as nothing. */
  lemma {:induction false} StringIsRead(value: Tree, template: Tree, path: Path, keys: Path)
    requires keys != [] && Conforms(value, template, path) && StringLeaf(template, keys)
    requires CheckedAlong(path, keys) && Checked(path + keys)
    ensures var read := ReadLeaf(value, keys); read.Some? && (read.value.Null? || read.value.Str?)
    decreases |keys|
  {
    var k, rest := keys[0], keys[1..];
    CheckedFurther(path, keys);
    ConformsByKeyIfChecked(value, template, path);
    assert path + keys == path + [k] + rest;
    if k in value.entries {
      if rest == [] {
        assert path + keys == path + [k];
        StringConforms(value.entries[k], template.entries[k], path + [k]);
      } else {
        StringIsRead(value.entries[k], template.entries[k], path + [k], rest);
      }
    } else if rest != [] {
      EmptyChain(rest);
    }
  }

  lemma StringConforms(value: Tree, template: Tree, path: Path)
    requires template.Str? && Checked(path) && Conforms(value, template, path)
    ensures value.Str?
  {
    assert !value.Str? ==> Fault(path, ExpectedString) in Faults(value, template, path);
  }

  lemma ConformsByKeyIfChecked(value: Tree, template: Tree, path: Path)
    requires Conforms(value, template, path) && template.Map? && Checked(path)
    ensures value.Map?
    ensures forall k | k in value.entries ::
      k in template.entries && Conforms(value.entries[k], template.entries[k], path + [k])
  {
    NonMappingIsAFault(value, template, path);
    ConformsByKey(value, template, path);
  }

  const PROVIDERS := ["anthropic", "openai", "deepseek", "zai"]

  /** The chains the cross-field phase reads in an agent. */
  function AgentChains(): set<Path> {
    (set i | 0 <= i < |PROVIDERS| :: ["providers", PROVIDERS[i], "enabled"])
    + {["harnesses", "claudeCode"], ["failover", "provider"], ["mnemosyne", "provider"],
      ["moa", "aggregator", "provider"]}
  }

  /** No chain passes through an exempt place: the exemptions below an agent begin otherwise. */
  lemma AgentChainsAreChecked(part: string, keys: Path)
    requires IsAgentPart(part) && keys in AgentChains()
    ensures CheckedAlong([part], keys)
  {
    forall n | 0 <= n < |keys|
      ensures Checked([part] + keys[..n])
    {
      var tail := SchemaPath(keys[..n]);
      SchemaPathConcat([part], keys[..n]);
      assert SchemaPath([part]) == ["agents"];
      MappingTails("agents", tail);
      ListTails("agents", tail);
      if n > 0 {
        assert tail[0] == SchemaPart(keys[0]);
        PlainNames(keys[0]);
      }
    }
  }

  lemma PlainNames(name: string)
    requires name in {"providers", "harnesses", "failover", "mnemosyne", "moa"}
    ensures SchemaPart(name) == name
  {
    assert name[|name| - 1] != ']' && name[|name| - 1] != '\n';
  }

  /** After a successful check none of these chains in an agent meets anything but a mapping. */
  lemma AgentChainsAreSafe(defaults: Object, machine: Tree, agent: Tree, part: string, keys: Path)
    requires IsAgentPart(part) && ("name" in defaults ==> defaults["name"].Str?)
    requires Conforms(Map(defaults), Map(defaults), ["agentDefaults"])
    requires Conforms(machine, Map(defaults), ["agentDefaults"])
    requires Conforms(agent, AgentTemplate(defaults), [part])
    requires keys in AgentChains() && OpenTemplate(AgentTemplate(defaults), keys)
    ensures ReadLeaf(DeepMerge(DeepMerge(Map(defaults), machine), agent), keys).Some?
  {
    LayeredAgentConforms(defaults, machine, agent, part);
    AgentChainsAreChecked(part, keys);
    ChainIsSafe(DeepMerge(DeepMerge(Map(defaults), machine), agent), AgentTemplate(defaults), [part], keys);
  }

  /** The chains the cross-field phase reads in the merged platform values. */
  predicate IsPlatformChain(keys: Path) {
    || (|keys| == 4 && keys[0] == "policy" && keys[1] == "contentSafety")
    || (|keys| == 3 && keys[0] == "models")
  }

  lemma PlatformChainsAreChecked(keys: Path)
    requires IsPlatformChain(keys)
    ensures CheckedAlong([], keys) && Checked(keys)
  {
    forall n | 0 <= n <= |keys| ensures Checked([] + keys[..n]) {
      assert [] + keys[..n] == keys[..n];
      var schema := SchemaPath(keys[..n]);
      if n > 0 {
        assert SchemaPart("policy") == "policy" && SchemaPart("models") == "models";
        assert schema[0] == SchemaPart(keys[0]);
      }
      if n > 1 && keys[0] == "policy" {
        assert SchemaPart("contentSafety") == "contentSafety";
        assert schema[1] == SchemaPart(keys[1]);
      }
      OtherPlacesAreChecked(schema);
    }
    assert [] + keys[..|keys|] == keys;
  }

  lemma OtherPlacesAreChecked(schema: Path)
    requires schema == [] || schema[0] == "models" || schema == ["policy"]
             || (|schema| > 1 && schema[0] == "policy" && schema[1] == "contentSafety")
    ensures schema !in ANY_MAPPING_PATHS && schema !in ANY_LIST_PATHS
  {
  }

  lemma PlatformChainsAreSafe(defaults: Tree, machine: Tree, keys: Path)
    requires Conforms(defaults, defaults, []) && Conforms(machine, defaults, [])
    requires IsPlatformChain(keys) && OpenTemplate(defaults, keys)
    ensures ReadLeaf(DeepMerge(defaults, machine), keys).Some?
  {
    MergedOverrideConforms(defaults, machine, []);
    PlatformChainsAreChecked(keys);
    ChainIsSafe(DeepMerge(defaults, machine), defaults, [], keys);
  }
}
