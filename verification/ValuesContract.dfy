/**
 The whole check of machine values: the schema phase over the values and every agent,
 then, on values without a fault, the cross-field phase, which reads the merged values
 without looking at their types again. A read that meets the wrong type raises.
 */
module ValuesContract {
  import opened Prelude
  import opened ConfigTree
  import opened MachineValues
  import Routes

  /* The schema phase */

  function AgentPart(index: nat): string {
    "agents[" + Decimal(index) + "]"
  }

  function Agents(machine: Object): seq<Tree> {
    if "agents" in machine && machine["agents"].List? then machine["agents"].items else []
  }

  function AgentDefaultsOf(values: Object): Tree {
    GetOr(values, "agentDefaults", Map(map[]))
  }

  function AgentFaults(defaults: Object, agent: Tree, index: nat): set<Fault> {
    if !agent.Map? then {Fault([AgentPart(index)], ExpectedMapping)}
    else Faults(agent, AgentTemplate(Entries(defaults, "agentDefaults")), [AgentPart(index)])
  }

  ghost function AgentsFaults(defaults: Object, agents: seq<Tree>, n: nat): set<Fault>
    requires n <= |agents|
  {
    set i, f | 0 <= i < n && f in AgentFaults(defaults, agents[i], i) :: f
  }

  /** What the schema phase reports. */
  ghost function SchemaFaults(defaults: Object, machine: Object): set<Fault> {
    Faults(Map(machine), Map(defaults), [])
    + if "agents" in machine && machine["agents"].List? then AgentsFaults(defaults, Agents(machine), |Agents(machine)|)
      else {Fault(["agents"], ExpectedList)}
  }

  /** The agents' template is the default values' `agentDefaults` with a name; it must be a mapping to be extended. */
  predicate SchemaRuns(defaults: Object, machine: Object) {
    AgentDefaultsOf(defaults).Map? || forall i | 0 <= i < |Agents(machine)| :: !Agents(machine)[i].Map?
  }

  lemma ReportedConcat(a: seq<Fault>, b: seq<Fault>)
    ensures Reported(a + b) == Reported(a) + Reported(b)
  {
  }

  lemma OneMoreAgent(defaults: Object, agents: seq<Tree>, n: nat)
    requires n < |agents|
    ensures AgentsFaults(defaults, agents, n + 1) ==
      AgentsFaults(defaults, agents, n) + AgentFaults(defaults, agents[n], n)
  {
  }

  method CheckAgentSchema(v: Validator, defaults: Object, agent: Tree, index: nat) returns (ok: bool)
    modifies v
    ensures old(v.errors) <= v.errors
    ensures ok <==> AgentDefaultsOf(defaults).Map? || !agent.Map?
    ensures ok ==> Reported(v.errors[|old(v.errors)|..]) == AgentFaults(defaults, agent, index)
  {
    if !agent.Map? {
      v.Report(Fault([AgentPart(index)], ExpectedMapping));
      return true;
    }
    if !AgentDefaultsOf(defaults).Map? {
      return false;
    }
    v.ValidateValue(agent, AgentTemplate(AgentDefaultsOf(defaults).entries), [AgentPart(index)]);
    return true;
  }

  method CheckAgents(v: Validator, defaults: Object, agents: seq<Tree>) returns (ok: bool)
    modifies v
    ensures old(v.errors) <= v.errors
    ensures ok <==> AgentDefaultsOf(defaults).Map? || forall i | 0 <= i < |agents| :: !agents[i].Map?
    ensures ok ==> Reported(v.errors[|old(v.errors)|..]) == AgentsFaults(defaults, agents, |agents|)
  {
    for i := 0 to |agents|
      invariant old(v.errors) <= v.errors
      invariant AgentDefaultsOf(defaults).Map? || forall j | 0 <= j < i :: !agents[j].Map?
      invariant Reported(v.errors[|old(v.errors)|..]) == AgentsFaults(defaults, agents, i)
    {
      ghost var before := v.errors;
      ok := CheckAgentSchema(v, defaults, agents[i], i);
      if !ok {
        return;
      }
      ReportedSince(old(v.errors), before, v.errors);
      OneMoreAgent(defaults, agents, i);
    }
    return true;
  }

  lemma ReportedSince(first: seq<Fault>, second: seq<Fault>, third: seq<Fault>)
    requires first <= second <= third
    ensures Reported(third[|first|..]) == Reported(second[|first|..]) + Reported(third[|second|..])
  {
    assert third[|first|..] == second[|first|..] + third[|second|..];
    ReportedConcat(second[|first|..], third[|second|..]);
  }

  method CheckSchema(v: Validator, defaults: Object, machine: Object) returns (ok: bool)
    requires v.errors == []
    modifies v
    ensures ok <==> SchemaRuns(defaults, machine)
    ensures ok ==> Reported(v.errors) == SchemaFaults(defaults, machine)
  {
    v.ValidateValue(Map(machine), Map(defaults), []);
    ghost var before := v.errors;
    assert before[0..] == before;
    if "agents" !in machine || !machine["agents"].List? {
      v.Report(Fault(["agents"], ExpectedList));
      ReportedConcat(before, [Fault(["agents"], ExpectedList)]);
      return true;
    }
    var agents := Agents(machine);
    ok := CheckAgents(v, defaults, agents);
    assert v.errors == before + v.errors[|before|..];
    ReportedConcat(before, v.errors[|before|..]);
  }

  /* Capacity and content safety */

  const FEATURES := ["moderation", "promptInjection"]

  function CapacityChain(provider: string): Path {
    ["models", provider, "enabled"]
  }

  predicate CapacityRuns(platform: Object, provider: string) {
    provider == "" || ReadLeaf(Map(platform), CapacityChain(provider)).Some?
  }

  predicate HasCapacity(platform: Object, provider: string) {
    provider == "" || ReadLeaf(Map(platform), CapacityChain(provider)) == Some(Bool(true))
  }

  /** Reports a provider whose platform capacity is not switched on; false when a read raises. */
  method RequireCapacity(v: Validator, platform: Object, place: Path, provider: string) returns (ok: bool)
    modifies v
    ensures |v.errors| >= old(|v.errors|)
    ensures ok <==> CapacityRuns(platform, provider)
    ensures ok ==> (|v.errors| == old(|v.errors|) <==> HasCapacity(platform, provider))
  {
    if provider == "" {
      return true;
    }
    var read := ReadLeaf(Map(platform), CapacityChain(provider));
    if read.None? {
      return false;
    }
    if read.value != Bool(true) {
      v.Report(Fault(place, MissingCapacity(provider)));
    }
    return true;
  }

  function StatusChain(feature: string): Path {
    ["policy", "contentSafety", feature, "status"]
  }

  predicate StatusRuns(platform: Object, feature: string) {
    var read := ReadLeaf(Map(platform), StatusChain(feature));
    read.Some? && !read.value.List? && !read.value.Map?
    && (read.value == Str("enabled") ==> CapacityRuns(platform, "openai"))
  }

  predicate StatusHolds(platform: Object, feature: string) {
    var read := ReadLeaf(Map(platform), StatusChain(feature));
    read == Some(Str("disabled")) || (read == Some(Str("enabled")) && HasCapacity(platform, "openai"))
  }

  predicate StatusesRun(platform: Object) {
    forall i | 0 <= i < |FEATURES| :: StatusRuns(platform, FEATURES[i])
  }

  predicate StatusesHold(platform: Object) {
    forall i | 0 <= i < |FEATURES| :: StatusHolds(platform, FEATURES[i])
  }

  method CheckStatuses(v: Validator, platform: Object) returns (ok: bool)
    modifies v
    ensures |v.errors| >= old(|v.errors|)
    ensures ok <==> StatusesRun(platform)
    ensures ok ==> (|v.errors| == old(|v.errors|) <==> StatusesHold(platform))
  {
    for i := 0 to |FEATURES|
      invariant |v.errors| >= old(|v.errors|)
      invariant forall j | 0 <= j < i :: StatusRuns(platform, FEATURES[j])
      invariant |v.errors| == old(|v.errors|) <==> forall j | 0 <= j < i :: StatusHolds(platform, FEATURES[j])
    {
      var read := ReadLeaf(Map(platform), StatusChain(FEATURES[i]));
      if read.None? || !Hashable(read.value) {
        return false;
      }
      if read.value != Str("enabled") && read.value != Str("disabled") {
        v.Report(Fault(StatusChain(FEATURES[i]), BadStatus));
      } else if read.value == Str("enabled") {
        var fine := RequireCapacity(v, platform, StatusChain(FEATURES[i]), "openai");
        if !fine {
          return false;
        }
      }
    }
    return true;
  }

  /* Webhooks */

  predicate IsNonEmptyStrings(t: Tree) {
    t.List? && forall i | 0 <= i < |t.items| :: t.items[i].Str? && t.items[i].text != ""
  }

  predicate ToolsetsHold(t: Tree) {
    IsNonEmptyStrings(t) && AllDifferent(t.items)
  }

  predicate AllDifferent(items: seq<Tree>) {
    forall i, j | 0 <= i < j < |items| :: items[i] != items[j]
  }

  function Elements(items: seq<Tree>): set<Tree> {
    set x | x in items
  }

  lemma ElementsGrow(init: seq<Tree>, last: Tree)
    ensures Elements(init + [last]) == Elements(init) + {last}
    ensures AllDifferent(init + [last]) <==> AllDifferent(init) && last !in init
  {
    var items := init + [last];
    assert items[|init|] == last;
    if AllDifferent(items) {
      forall i, j | 0 <= i < j < |init| ensures init[i] != init[j] {
        assert items[i] == init[i] && items[j] == init[j];
      }
      forall i | 0 <= i < |init| ensures init[i] != last {
        assert items[i] == init[i];
      }
    }
  }

  lemma {:induction false} DistinctByCount(items: seq<Tree>)
    ensures |items| == |Elements(items)| <==> AllDifferent(items)
    ensures |items| >= |Elements(items)|
    decreases |items|
  {
    if items != [] {
      var init, last := items[..|items| - 1], items[|items| - 1];
      assert items == init + [last];
      DistinctByCount(init);
      ElementsGrow(init, last);
      if last in init {
        assert Elements(init) + {last} == Elements(init);
      }
    }
  }

  const ROUTE_FIELDS := {
    "provider", "enabled", "description", "events", "prompt", "skills", "filters", "script", "deliver",
    "deliver_extra", "deliver_only"
  }

  const TEXT_FIELDS := ["description", "prompt", "script", "deliver"]
  const LIST_FIELDS := ["events", "skills"]

  predicate IsFilters(t: Tree) {
    t.Map? || (t.List? && forall i | 0 <= i < |t.items| :: t.items[i].Map?)
  }

  predicate ProviderHolds(route: Object) {
    var provider := GetOr(route, "provider", Null);
    provider.Str? && Routes.SupportedProvider(provider.text)
  }

  predicate FieldsHold(route: Object) {
    && route.Keys <= ROUTE_FIELDS
    && TextsHold(route, TEXT_FIELDS)
    && ListsHold(route, LIST_FIELDS)
  }

  predicate SwitchHolds(route: Object) {
    "enabled" in route ==> route["enabled"].Bool?
  }

  predicate OptionsHold(route: Object) {
    && ("filters" in route ==> IsFilters(route["filters"]))
    && ("deliver_extra" in route ==> route["deliver_extra"].Map?)
    && ("deliver_only" in route ==> route["deliver_only"].Bool?)
    && !(GetOr(route, "deliver_only", Null) == Bool(true) && GetOr(route, "deliver", Str("log")) == Str("log"))
  }

  predicate RouteHolds(name: string, route: Tree) {
    Routes.ValidRouteName(name) && route.Map?
    && FieldsHold(route.entries) && ProviderHolds(route.entries)
    && SwitchHolds(route.entries) && OptionsHold(route.entries)
  }

  /** Looking a provider up in the set of supported ones raises for a list or a mapping. */
  predicate RouteRuns(route: Tree) {
    route.Map? && "provider" in route.entries ==> !route.entries["provider"].List? && !route.entries["provider"].Map?
  }

  predicate WebhooksRun(webhooks: Object) {
    forall n | n in Entries(webhooks, "routes") :: RouteRuns(Entries(webhooks, "routes")[n])
  }

  predicate WebhooksHold(webhooks: Object) {
    && ToolsetsHold(GetOr(webhooks, "toolsets", Null))
    && forall n | n in Entries(webhooks, "routes") :: RouteHolds(n, Entries(webhooks, "routes")[n])
  }

  lemma NothingElse<T>(a: set<T>, b: set<T>)
    ensures a - b == {} <==> a <= b
  {
    assert forall x :: x in a - b <==> x in a && x !in b;
    if a - b == {} {
      forall x | x in a ensures x in b {
        assert x !in a - b;
      }
    }
  }

  method CheckKeys(v: Validator, present: set<string>, known: set<string>, place: Path)
    modifies v
    ensures |v.errors| >= old(|v.errors|)
    ensures |v.errors| == old(|v.errors|) <==> present <= known
  {
    var unexpected := present - known;
    ghost var unknown := unexpected;
    while unexpected != {}
      invariant unexpected <= unknown
      invariant |v.errors| >= old(|v.errors|)
      invariant |v.errors| == old(|v.errors|) <==> unexpected == unknown
      decreases |unexpected|
    {
      var field :| field in unexpected;
      unexpected := unexpected - {field};
      v.Report(Fault(place + [field], UnknownKey));
    }
    NothingElse(present, known);
  }

  predicate TextsHold(route: Object, fields: seq<string>) {
    forall i | 0 <= i < |fields| :: fields[i] in route ==> route[fields[i]].Str?
  }

  predicate ListsHold(route: Object, fields: seq<string>) {
    forall i | 0 <= i < |fields| :: fields[i] in route ==> IsNonEmptyStrings(route[fields[i]])
  }

  method CheckTexts(v: Validator, route: Object, fields: seq<string>, place: Path)
    modifies v
    ensures |v.errors| >= old(|v.errors|)
    ensures |v.errors| == old(|v.errors|) <==> TextsHold(route, fields)
  {
    for i := 0 to |fields|
      invariant |v.errors| >= old(|v.errors|)
      invariant |v.errors| == old(|v.errors|) <==>
        forall j | 0 <= j < i :: fields[j] in route ==> route[fields[j]].Str?
    {
      if fields[i] in route && !route[fields[i]].Str? {
        v.Report(Fault(place + [fields[i]], ExpectedString));
      }
    }
  }

  method CheckLists(v: Validator, route: Object, fields: seq<string>, place: Path)
    modifies v
    ensures |v.errors| >= old(|v.errors|)
    ensures |v.errors| == old(|v.errors|) <==> ListsHold(route, fields)
  {
    for i := 0 to |fields|
      invariant |v.errors| >= old(|v.errors|)
      invariant |v.errors| == old(|v.errors|) <==>
        forall j | 0 <= j < i :: fields[j] in route ==> IsNonEmptyStrings(route[fields[j]])
    {
      if fields[i] in route && !IsNonEmptyStrings(route[fields[i]]) {
        v.Report(Fault(place + [fields[i]], ExpectedStrings));
      }
    }
  }

  method CheckOptions(v: Validator, route: Object, place: Path)
    modifies v
    ensures |v.errors| >= old(|v.errors|)
    ensures |v.errors| == old(|v.errors|) <==> OptionsHold(route)
  {
    if "filters" in route && !IsFilters(route["filters"]) {
      v.Report(Fault(place + ["filters"], ExpectedMappings));
    }
    if "deliver_extra" in route && !route["deliver_extra"].Map? {
      v.Report(Fault(place + ["deliver_extra"], ExpectedMapping));
    }
    if "deliver_only" in route && !route["deliver_only"].Bool? {
      v.Report(Fault(place + ["deliver_only"], ExpectedBoolean));
    }
    if GetOr(route, "deliver_only", Null) == Bool(true) && GetOr(route, "deliver", Str("log")) == Str("log") {
      v.Report(Fault(place + ["deliver_only"], LogDelivery));
    }
  }

  method CheckRoute(v: Validator, name: string, route: Tree, place: Path) returns (ok: bool)
    modifies v
    ensures |v.errors| >= old(|v.errors|)
    ensures ok <==> RouteRuns(route)
    ensures ok ==> (|v.errors| == old(|v.errors|) <==> RouteHolds(name, route))
  {
    if !Routes.ValidRouteName(name) {
      v.Report(Fault(place, BadRouteName));
    }
    if !route.Map? {
      v.Report(Fault(place, ExpectedMapping));
      return true;
    }
    CheckKeys(v, route.entries.Keys, ROUTE_FIELDS, place);
    var provider := GetOr(route.entries, "provider", Null);
    if !Hashable(provider) {
      return false;
    }
    if !ProviderHolds(route.entries) {
      v.Report(Fault(place + ["provider"], UnsupportedProvider));
    }
    if !SwitchHolds(route.entries) {
      v.Report(Fault(place + ["enabled"], ExpectedBoolean));
    }
    CheckTexts(v, route.entries, TEXT_FIELDS, place);
    CheckLists(v, route.entries, LIST_FIELDS, place);
    CheckOptions(v, route.entries, place);
    return true;
  }

  method ValidateWebhookConfig(v: Validator, webhooks: Object, place: Path) returns (ok: bool)
    modifies v
    ensures |v.errors| >= old(|v.errors|)
    ensures ok <==> WebhooksRun(webhooks)
    ensures ok ==> (|v.errors| == old(|v.errors|) <==> WebhooksHold(webhooks))
  {
    var toolsets := GetOr(webhooks, "toolsets", Null);
    if !IsNonEmptyStrings(toolsets) {
      v.Report(Fault(place + ["toolsets"], ExpectedStrings));
    } else {
      DistinctByCount(toolsets.items);
      if |toolsets.items| != |Elements(toolsets.items)| {
        v.Report(Fault(place + ["toolsets"], DuplicateToolsets));
      }
    }
    assert |v.errors| == old(|v.errors|) <==> ToolsetsHold(toolsets);
    var routes := Entries(webhooks, "routes");
    var unvisited := routes.Keys;
    while unvisited != {}
      invariant unvisited <= routes.Keys && |v.errors| >= old(|v.errors|)
      invariant forall n | n in routes && n !in unvisited :: RouteRuns(routes[n])
      invariant |v.errors| == old(|v.errors|) <==>
        ToolsetsHold(toolsets) && forall n | n in routes && n !in unvisited :: RouteHolds(n, routes[n])
      decreases |unvisited|
    {
      var name :| name in unvisited;
      var fine := CheckRoute(v, name, routes[name], place + ["routes", name]);
      if !fine {
        return false;
      }
      unvisited := unvisited - {name};
    }
    return true;
  }

  /* Direct SSH */

  predicate HostHolds(host: string, config: Tree) {
    && host != ""
    && config.Map? && config.entries.Keys <= {"cnameChain"}
    && IsStringList(GetOr(config.entries, "cnameChain", List([])))
  }

  predicate HostsHold(ssh: Object) {
    var hosts := GetOr(ssh, "hosts", Null);
    hosts.Null? || (hosts.Map? && forall h | h in hosts.entries :: HostHolds(h, hosts.entries[h]))
  }

  method CheckHost(v: Validator, host: string, config: Tree, place: Path)
    modifies v
    ensures |v.errors| >= old(|v.errors|)
    ensures |v.errors| == old(|v.errors|) <==> HostHolds(host, config)
  {
    if host == "" {
      v.Report(Fault(place, EmptyHostName));
    }
    if !config.Map? {
      v.Report(Fault(place, ExpectedMapping));
      return;
    }
    CheckKeys(v, config.entries.Keys, {"cnameChain"}, place);
    if !IsStringList(GetOr(config.entries, "cnameChain", List([]))) {
      v.Report(Fault(place + ["cnameChain"], ExpectedStrings));
    }
  }

  method ValidateSshHosts(v: Validator, ssh: Object, place: Path)
    modifies v
    ensures |v.errors| >= old(|v.errors|)
    ensures |v.errors| == old(|v.errors|) <==> HostsHold(ssh)
  {
    var hosts := GetOr(ssh, "hosts", Null);
    if hosts.Null? {
      return;
    }
    if !hosts.Map? {
      v.Report(Fault(place + ["hosts"], ExpectedMapping));
      return;
    }
    var unvisited := hosts.entries.Keys;
    while unvisited != {}
      invariant unvisited <= hosts.entries.Keys && |v.errors| >= old(|v.errors|)
      invariant |v.errors| == old(|v.errors|) <==>
        forall h | h in hosts.entries && h !in unvisited :: HostHolds(h, hosts.entries[h])
      decreases |unvisited|
    {
      var host :| host in unvisited;
      CheckHost(v, host, hosts.entries[host], place + ["hosts", host]);
      unvisited := unvisited - {host};
    }
  }

  /** The configured SSH hosts, if there are any to look at. */
  predicate SshHolds(configured: Object) {
    HasMap(configured, "directEgress") && HasMap(configured["directEgress"].entries, "ssh") ==>
      HostsHold(configured["directEgress"].entries["ssh"].entries)
  }

  method CheckSsh(v: Validator, configured: Object, part: string)
    modifies v
    ensures |v.errors| >= old(|v.errors|)
    ensures |v.errors| == old(|v.errors|) <==> SshHolds(configured)
  {
    if HasMap(configured, "directEgress") && HasMap(configured["directEgress"].entries, "ssh") {
      ValidateSshHosts(v, configured["directEgress"].entries["ssh"].entries, [part, "directEgress", "ssh"]);
    }
  }

  /* Agents */

  predicate LowerAlnum(c: char) {
    'a' <= c <= 'z' || IsDigit(c)
  }

  /** `[a-z0-9]([-a-z0-9]*[a-z0-9])?`, at most 53 characters. */
  predicate ReleaseName(name: string) {
    && 1 <= |name| <= 53 && LowerAlnum(name[0]) && LowerAlnum(name[|name| - 1])
    && forall i | 0 <= i < |name| :: LowerAlnum(name[i]) || name[i] == '-'
  }

  predicate HasDoubleHyphen(name: string) {
    exists i | 0 <= i < |name| - 1 :: name[i] == '-' && name[i + 1] == '-'
  }

  function NameOf(configured: Object): Tree {
    GetOr(configured, "name", Null)
  }

  predicate NameHolds(configured: Object) {
    NameOf(configured).Str? && ReleaseName(NameOf(configured).text)
  }

  function MergedAgent(defaults: Tree, configured: Object): (agent: Tree)
    ensures agent.Map?
  {
    DeepMerge(defaults, Map(configured))
  }

  /** Python's truth value; a float zero is written `0.0` or `-0.0`. */
  predicate Truthy(t: Tree) {
    match t
    case Map(m) => m != map[]
    case List(items) => items != []
    case Str(text) => text != ""
    case Int(n) => n != 0
    case Bool(b) => b
    case Null => false
    case Other(repr) => repr != "0.0" && repr != "-0.0"
  }

  /** A read that decides which provider an agent consumes: a switch, a model of a harness, or a choice. */
  datatype Use = Switch(keys: Path, provider: string) | Model(keys: Path, provider: string) | Choice(keys: Path)

  const USES: seq<Use> := [
    Switch(["providers", "anthropic", "enabled"], "anthropic"), Switch(["providers", "openai", "enabled"], "openai"),
    Switch(["providers", "deepseek", "enabled"], "deepseek"), Switch(["providers", "zai", "enabled"], "zai"),
    Model(["harnesses", "claudeCode"], "anthropic"),
    Choice(["failover", "provider"]), Choice(["mnemosyne", "provider"]), Choice(["moa", "aggregator", "provider"])
  ]

  /** The provider a value calls for, or none: a switch must be True itself, a model truthy. */
  function Consumed(use: Use, value: Tree): string {
    match use
    case Switch(_, provider) => if value == Bool(true) then provider else ""
    case Model(_, provider) => if Truthy(value) then provider else ""
    case Choice(_) => if value.Str? then value.text else ""
  }

  function ReadUse(agent: Tree, use: Use): Option<Tree> {
    if use.keys == [] then None else ReadLeaf(agent, use.keys)
  }

  predicate UseRuns(platform: Object, agent: Tree, use: Use) {
    var read := ReadUse(agent, use);
    read.Some? && CapacityRuns(platform, Consumed(use, read.value))
  }

  predicate UseHolds(platform: Object, agent: Tree, use: Use) {
    var read := ReadUse(agent, use);
    read.Some? && HasCapacity(platform, Consumed(use, read.value))
  }

  predicate UsesRun(platform: Object, agent: Tree, uses: seq<Use>) {
    forall i | 0 <= i < |uses| :: UseRuns(platform, agent, uses[i])
  }

  predicate UsesHold(platform: Object, agent: Tree, uses: seq<Use>) {
    forall i | 0 <= i < |uses| :: UseHolds(platform, agent, uses[i])
  }

  method CheckUses(v: Validator, platform: Object, agent: Tree, part: string, uses: seq<Use>) returns (ok: bool)
    modifies v
    ensures |v.errors| >= old(|v.errors|)
    ensures ok <==> UsesRun(platform, agent, uses)
    ensures ok ==> (|v.errors| == old(|v.errors|) <==> UsesHold(platform, agent, uses))
  {
    for i := 0 to |uses|
      invariant |v.errors| >= old(|v.errors|)
      invariant forall j | 0 <= j < i :: UseRuns(platform, agent, uses[j])
      invariant |v.errors| == old(|v.errors|) <==> forall j | 0 <= j < i :: UseHolds(platform, agent, uses[j])
    {
      ok := CheckUse(v, platform, agent, part, uses[i]);
      if !ok {
        return;
      }
    }
    return true;
  }

  method CheckUse(v: Validator, platform: Object, agent: Tree, part: string, use: Use) returns (ok: bool)
    modifies v
    ensures |v.errors| >= old(|v.errors|)
    ensures ok <==> UseRuns(platform, agent, use)
    ensures ok ==> (|v.errors| == old(|v.errors|) <==> UseHolds(platform, agent, use))
  {
    var read := ReadUse(agent, use);
    if read.None? {
      return false;
    }
    ok := RequireCapacity(v, platform, [part] + use.keys, Consumed(use, read.value));
  }

  predicate AgentWebhooksRun(agent: Tree)
    requires agent.Map?
  {
    HasMap(agent.entries, "webhooks") ==> WebhooksRun(agent.entries["webhooks"].entries)
  }

  /** A webhook-enabled agent has a name without consecutive hyphens, and sound webhooks. */
  predicate AgentWebhooksHold(configured: Object, agent: Tree)
    requires agent.Map?
  {
    HasMap(agent.entries, "webhooks") ==>
      && !(NameOf(configured).Str? && HasDoubleHyphen(NameOf(configured).text))
      && WebhooksHold(agent.entries["webhooks"].entries)
  }

  predicate AgentRuns(platform: Object, defaults: Tree, configured: Object) {
    var agent := MergedAgent(defaults, configured);
    AgentWebhooksRun(agent) && UsesRun(platform, agent, USES)
  }

  /** Everything but the name. */
  predicate AgentHolds(platform: Object, defaults: Tree, configured: Object) {
    var agent := MergedAgent(defaults, configured);
    AgentWebhooksHold(configured, agent) && UsesHold(platform, agent, USES) && SshHolds(configured)
  }

  method CheckAgent(v: Validator, platform: Object, defaults: Tree, configured: Object, index: nat) returns (ok: bool)
    modifies v
    ensures |v.errors| >= old(|v.errors|)
    ensures ok <==> AgentRuns(platform, defaults, configured)
    ensures ok ==> (|v.errors| == old(|v.errors|) <==> AgentHolds(platform, defaults, configured))
  {
    var part, agent, name := AgentPart(index), MergedAgent(defaults, configured), NameOf(configured);
    if HasMap(agent.entries, "webhooks") {
      if name.Str? && HasDoubleHyphen(name.text) {
        v.Report(Fault([part, "name"], ConsecutiveHyphens));
      }
      ok := ValidateWebhookConfig(v, agent.entries["webhooks"].entries, [part, "webhooks"]);
      if !ok {
        return;
      }
    }
    ok := CheckUses(v, platform, agent, part, USES);
    if !ok {
      return;
    }
    CheckSsh(v, configured, part);
  }

  /** The mapping-valued agents are the ones looked at; their names are valid and all different. */
  predicate NamesHold(agents: seq<Tree>, n: nat)
    requires n <= |agents|
  {
    && (forall i | 0 <= i < n && agents[i].Map? :: NameHolds(agents[i].entries))
    && forall i, j | 0 <= i < j < n && agents[i].Map? && agents[j].Map? ::
         NameOf(agents[i].entries) != NameOf(agents[j].entries)
  }

  /** The names seen so far are the valid ones, whether or not they were reported. */
  ghost predicate NamesSeen(agents: seq<Tree>, n: nat, names: map<string, nat>)
    requires n <= |agents|
  {
    forall t :: t in names <==> exists i | 0 <= i < n :: IsNamed(agents[i], t)
  }

  function ValidNames(configured: Object): set<string> {
    if NameHolds(configured) then {NameOf(configured).text} else {}
  }

  method CheckName(v: Validator, configured: Object, index: nat, names: map<string, nat>)
      returns (names': map<string, nat>)
    modifies v
    ensures |v.errors| >= old(|v.errors|)
    ensures |v.errors| == old(|v.errors|) <==> NameHolds(configured) && NameOf(configured).text !in names
    ensures names'.Keys == names.Keys + ValidNames(configured)
  {
    var name := NameOf(configured);
    if !name.Str? || !ReleaseName(name.text) {
      v.Report(Fault([AgentPart(index), "name"], BadName));
      return names;
    }
    if name.text in names {
      v.Report(Fault([AgentPart(index), "name"], DuplicateName(names[name.text])));
      return names;
    }
    return names[name.text := index];
  }

  predicate IsNamed(agent: Tree, t: string) {
    agent.Map? && NameHolds(agent.entries) && NameOf(agent.entries) == Str(t)
  }

  lemma OneMoreSeen(agents: seq<Tree>, n: nat, names: map<string, nat>, names': map<string, nat>)
    requires n < |agents| && NamesSeen(agents, n, names)
    requires !agents[n].Map? ==> names' == names
    requires agents[n].Map? ==> names'.Keys == names.Keys + ValidNames(agents[n].entries)
    ensures NamesSeen(agents, n + 1, names')
  {
    forall t ensures t in names' <==> exists i | 0 <= i < n + 1 :: IsNamed(agents[i], t) {
      assert t in names <==> exists i | 0 <= i < n :: IsNamed(agents[i], t);
      assert t in names' <==> t in names || IsNamed(agents[n], t);
    }
  }

  /** A further valid name is a new one iff it has not been seen. */
  lemma OneMoreName(agents: seq<Tree>, n: nat, names: map<string, nat>)
    requires n < |agents| && NamesSeen(agents, n, names)
    ensures agents[n].Map? ==>
      (NamesHold(agents, n + 1) <==>
        NamesHold(agents, n) && NameHolds(agents[n].entries) && NameOf(agents[n].entries).text !in names)
    ensures !agents[n].Map? ==> (NamesHold(agents, n + 1) <==> NamesHold(agents, n))
  {
    if agents[n].Map? && NameHolds(agents[n].entries) {
      var t := NameOf(agents[n].entries).text;
      assert t in names <==> exists i | 0 <= i < n :: IsNamed(agents[i], t);
      if NamesHold(agents, n) && t !in names {
        NewNameHolds(agents, n, t);
      }
    }
  }

  lemma NewNameHolds(agents: seq<Tree>, n: nat, t: string)
    requires n < |agents| && NamesHold(agents, n) && IsNamed(agents[n], t)
    requires forall i | 0 <= i < n :: !IsNamed(agents[i], t)
    ensures NamesHold(agents, n + 1)
  {
    forall i | 0 <= i < n && agents[i].Map? ensures NameOf(agents[i].entries) != Str(t) {
      assert !IsNamed(agents[i], t);
    }
  }

  /* The cross-field phase */

  function AgentDefaults(defaults: Object, machine: Object): Tree {
    DeepMerge(AgentDefaultsOf(defaults), AgentDefaultsOf(machine))
  }

  predicate AgentsRun(platform: Object, defaults: Tree, agents: seq<Tree>, n: nat)
    requires n <= |agents|
  {
    forall i | 0 <= i < n && agents[i].Map? :: AgentRuns(platform, defaults, agents[i].entries)
  }

  predicate AgentsHold(platform: Object, defaults: Tree, agents: seq<Tree>, n: nat)
    requires n <= |agents|
  {
    forall i | 0 <= i < n && agents[i].Map? :: AgentHolds(platform, defaults, agents[i].entries)
  }

  /** No read of the phase raises. */
  predicate CrossFieldRuns(defaults: Object, machine: Object) {
    var platform, agents := MergeObjects(defaults, machine), Agents(machine);
    && StatusesRun(platform)
    && AgentsRun(platform, AgentDefaults(defaults, machine), agents, |agents|)
  }

  /** The contract between the fields. */
  predicate CrossFieldHolds(defaults: Object, machine: Object) {
    var platform, agents := MergeObjects(defaults, machine), Agents(machine);
    && StatusesHold(platform)
    && NamesHold(agents, |agents|)
    && AgentsHold(platform, AgentDefaults(defaults, machine), agents, |agents|)
    && (AgentDefaultsOf(machine).Map? ==> SshHolds(AgentDefaultsOf(machine).entries))
  }

  method CheckOneAgent(v: Validator, platform: Object, defaults: Tree, agent: Tree, index: nat, names: map<string, nat>)
      returns (ok: bool, names': map<string, nat>)
    modifies v
    ensures |v.errors| >= old(|v.errors|)
    ensures ok <==> agent.Map? ==> AgentRuns(platform, defaults, agent.entries)
    ensures !agent.Map? ==> names' == names && |v.errors| == old(|v.errors|)
    ensures agent.Map? ==> names'.Keys == names.Keys + ValidNames(agent.entries)
    ensures ok && agent.Map? ==> (|v.errors| == old(|v.errors|) <==>
      && NameHolds(agent.entries) && NameOf(agent.entries).text !in names
      && AgentHolds(platform, defaults, agent.entries))
  {
    if !agent.Map? {
      return true, names;
    }
    names' := CheckName(v, agent.entries, index, names);
    ok := CheckAgent(v, platform, defaults, agent.entries, index);
  }

  method CheckAllAgents(v: Validator, platform: Object, defaults: Tree, agents: seq<Tree>) returns (ok: bool)
    modifies v
    ensures |v.errors| >= old(|v.errors|)
    ensures ok <==> AgentsRun(platform, defaults, agents, |agents|)
    ensures ok ==> (|v.errors| == old(|v.errors|) <==>
                    NamesHold(agents, |agents|) && AgentsHold(platform, defaults, agents, |agents|))
  {
    var names: map<string, nat> := map[];
    for i := 0 to |agents|
      invariant |v.errors| >= old(|v.errors|)
      invariant NamesSeen(agents, i, names) && AgentsRun(platform, defaults, agents, i)
      invariant |v.errors| == old(|v.errors|) <==> NamesHold(agents, i) && AgentsHold(platform, defaults, agents, i)
    {
      ghost var seen := names;
      var fine;
      fine, names := CheckOneAgent(v, platform, defaults, agents[i], i, names);
      OneMoreChecked(platform, defaults, agents, i);
      if !fine {
        NotAllRun(platform, defaults, agents, i);
        return false;
      }
      OneMoreName(agents, i, seen);
      OneMoreSeen(agents, i, seen, names);
    }
    return true;
  }

  lemma OneMoreChecked(platform: Object, defaults: Tree, agents: seq<Tree>, n: nat)
    requires n < |agents|
    ensures AgentsRun(platform, defaults, agents, n + 1) <==>
      AgentsRun(platform, defaults, agents, n) && (agents[n].Map? ==> AgentRuns(platform, defaults, agents[n].entries))
    ensures AgentsHold(platform, defaults, agents, n + 1) <==>
      AgentsHold(platform, defaults, agents, n) &&
        (agents[n].Map? ==> AgentHolds(platform, defaults, agents[n].entries))
  {
  }

  lemma NotAllRun(platform: Object, defaults: Tree, agents: seq<Tree>, n: nat)
    requires n < |agents| && agents[n].Map? && !AgentRuns(platform, defaults, agents[n].entries)
    ensures !AgentsRun(platform, defaults, agents, |agents|)
  {
  }

  method ValidateCrossFieldContract(v: Validator, defaults: Object, machine: Object) returns (ok: bool)
    modifies v
    ensures |v.errors| >= old(|v.errors|)
    ensures ok <==> CrossFieldRuns(defaults, machine)
    ensures ok ==> (|v.errors| == old(|v.errors|) <==> CrossFieldHolds(defaults, machine))
  {
    var platform := MergeObjects(defaults, machine);
    ok := CheckStatuses(v, platform);
    if !ok {
      return;
    }
    ok := CheckAllAgents(v, platform, AgentDefaults(defaults, machine), Agents(machine));
    if !ok {
      return;
    }
    if AgentDefaultsOf(machine).Map? {
      CheckSsh(v, AgentDefaultsOf(machine).entries, "agentDefaults");
    }
  }

  /* The whole check */

  datatype Outcome = Raised | Returned(errors: seq<Fault>)

  ghost predicate SchemaClean(defaults: Object, machine: Object) {
    SchemaRuns(defaults, machine) && SchemaFaults(defaults, machine) == {}
  }

  method Validate(defaults: Object, machine: Tree) returns (outcome: Outcome)
    ensures !machine.Map? ==> outcome == Returned([Fault([], ExpectedMapping)])
    ensures machine.Map? ==>
      (outcome.Raised? <==>
        !SchemaRuns(defaults, machine.entries)
        || (SchemaClean(defaults, machine.entries) && !CrossFieldRuns(defaults, machine.entries)))
    ensures machine.Map? && outcome.Returned? && !SchemaClean(defaults, machine.entries) ==>
      Reported(outcome.errors) == SchemaFaults(defaults, machine.entries)
    ensures machine.Map? ==>
      (outcome == Returned([]) <==>
        && SchemaClean(defaults, machine.entries)
        && CrossFieldRuns(defaults, machine.entries) && CrossFieldHolds(defaults, machine.entries))
  {
    if !machine.Map? {
      return Returned([Fault([], ExpectedMapping)]);
    }
    var v := new Validator();
    var ok := CheckSchema(v, defaults, machine.entries);
    if !ok {
      return Raised;
    }
    NothingReported(v.errors);
    if v.errors != [] {
      return Returned(v.errors);
    }
    ok := ValidateCrossFieldContract(v, defaults, machine.entries);
    return if ok then Returned(v.errors) else Raised;
  }

  lemma NothingReported(errors: seq<Fault>)
    ensures Reported(errors) == {} <==> errors == []
  {
    assert errors != [] ==> errors[0] in Reported(errors);
  }
}
