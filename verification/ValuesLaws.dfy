/**
 What a clean schema phase is worth: on shaped default values the cross-field phase reads
 everything safely, but for webhook providers.
 */
module ValuesLaws {
  import opened Prelude
  import opened ConfigTree
  import opened MachineValues
  import opened ValuesContract

  /* What a clean schema phase is worth */

  /**
   What the cross-field phase takes for granted about the default values: statuses are strings,
   models are mappings, the agent defaults are a mapping in which the reads below meet mappings.
   */
  ghost predicate Shaped(defaults: Object) {
    && (forall i | 0 <= i < |FEATURES| :: StringLeaf(Map(defaults), StatusChain(FEATURES[i])))
    && ("models" in defaults ==> IsMapOfMaps(defaults["models"]))
    && AgentDefaultsOf(defaults).Map?
    && ("name" in AgentDefaultsOf(defaults).entries ==> AgentDefaultsOf(defaults).entries["name"].Str?)
    && forall i | 0 <= i < |USES| :: OpenTemplate(AgentTemplate(AgentDefaultsOf(defaults).entries), USES[i].keys)
  }

  predicate IsMapOfMaps(t: Tree) {
    t.Map? && forall k | k in t.entries :: t.entries[k].Map?
  }

  /** The default values pass the check against themselves. */
  ghost predicate SelfValid(defaults: Object) {
    Conforms(Map(defaults), Map(defaults), [])
  }

  lemma RootIsPlain()
    ensures SchemaPath([]) !in ANY_MAPPING_PATHS && SchemaPath([]) !in ANY_LIST_PATHS
  {
    assert SchemaPath([]) == [];
  }

  lemma AgentDefaultsConform(defaults: Object, values: Object)
    requires Conforms(Map(values), Map(defaults), []) && AgentDefaultsOf(defaults).Map?
    ensures Conforms(AgentDefaultsOf(values), AgentDefaultsOf(defaults), ["agentDefaults"])
  {
    RootIsPlain();
    ConformsByKey(Map(values), Map(defaults), []);
    assert [] + ["agentDefaults"] == ["agentDefaults"];
    if "agentDefaults" !in values {
      AgentRootIsPlain("agentDefaults");
      ConformsByKey(Map(map[]), AgentDefaultsOf(defaults), ["agentDefaults"]);
    }
  }

  lemma AgentPartIsAgent(index: nat)
    ensures IsAgentPart(AgentPart(index))
  {
    DecimalDigits(index);
    IndexIsDropped("agents", Decimal(index));
    assert "agents" + "[" == "agents[";
  }

  lemma MissingListIsAFault(defaults: Object, machine: Object)
    ensures !("agents" in machine && machine["agents"].List?) ==>
      Fault(["agents"], ExpectedList) in SchemaFaults(defaults, machine)
  {
  }

  lemma NonMappingAgentIsAFault(defaults: Object, agent: Tree, index: nat)
    ensures !agent.Map? ==> Fault([AgentPart(index)], ExpectedMapping) in AgentFaults(defaults, agent, index)
  {
  }

  /** Values without schema faults: each of their parts conforms to its template. */
  lemma CleanPartsConform(defaults: Object, machine: Object)
    requires SchemaFaults(defaults, machine) == {}
    ensures Conforms(Map(machine), Map(defaults), [])
    ensures "agents" in machine && machine["agents"].List?
    ensures forall i | 0 <= i < |Agents(machine)| :: Agents(machine)[i].Map?
    ensures forall i | 0 <= i < |Agents(machine)| ::
      Conforms(Agents(machine)[i], AgentTemplate(Entries(defaults, "agentDefaults")), [AgentPart(i)])
  {
    assert Faults(Map(machine), Map(defaults), []) <= SchemaFaults(defaults, machine);
    MissingListIsAFault(defaults, machine);
    forall i | 0 <= i < |Agents(machine)| ensures AgentFaults(defaults, Agents(machine)[i], i) == {} {
      forall f ensures f !in AgentFaults(defaults, Agents(machine)[i], i) {
        assert f !in SchemaFaults(defaults, machine);
      }
    }
    forall i | 0 <= i < |Agents(machine)| ensures Agents(machine)[i].Map? {
      NonMappingAgentIsAFault(defaults, Agents(machine)[i], i);
    }
  }

  lemma CleanPlatformConforms(defaults: Object, machine: Object)
    requires SelfValid(defaults) && SchemaFaults(defaults, machine) == {}
    ensures Conforms(Map(MergeObjects(defaults, machine)), Map(defaults), [])
  {
    CleanPartsConform(defaults, machine);
    MergedOverrideConforms(Map(defaults), Map(machine), []);
    assert DeepMerge(Map(defaults), Map(machine)) == Map(MergeObjects(defaults, machine));
  }

  lemma CleanAgentConforms(defaults: Object, machine: Object, index: nat)
    requires SelfValid(defaults) && Shaped(defaults) && SchemaFaults(defaults, machine) == {}
    requires index < |Agents(machine)|
    ensures Agents(machine)[index].Map?
    ensures Conforms(MergedAgent(AgentDefaults(defaults, machine), Agents(machine)[index].entries),
                     AgentTemplate(AgentDefaultsOf(defaults).entries), [AgentPart(index)])
  {
    CleanPartsConform(defaults, machine);
    AgentDefaultsConform(defaults, defaults);
    AgentDefaultsConform(defaults, machine);
    AgentPartIsAgent(index);
    assert Entries(defaults, "agentDefaults") == AgentDefaultsOf(defaults).entries;
    LayeredAgentConforms(AgentDefaultsOf(defaults).entries, AgentDefaultsOf(machine), Agents(machine)[index],
                         AgentPart(index));
  }

  /* The cross-field phase on clean values */

  lemma CapacityIsRead(defaults: Object, machine: Object, provider: string)
    requires SelfValid(defaults) && Shaped(defaults) && SchemaFaults(defaults, machine) == {}
    ensures CapacityRuns(MergeObjects(defaults, machine), provider)
  {
    var keys := CapacityChain(provider);
    CleanPartsConform(defaults, machine);
    assert keys[1..] == [provider, "enabled"] && keys[1..][1..] == ["enabled"];
    assert OpenTemplate(Map(defaults), keys);
    PlatformChainsAreSafe(Map(defaults), Map(machine), keys);
    assert DeepMerge(Map(defaults), Map(machine)) == Map(MergeObjects(defaults, machine));
  }

  lemma StatusIsRead(defaults: Object, machine: Object, i: nat)
    requires SelfValid(defaults) && Shaped(defaults) && SchemaFaults(defaults, machine) == {}
    requires i < |FEATURES|
    ensures StatusRuns(MergeObjects(defaults, machine), FEATURES[i])
  {
    var keys := StatusChain(FEATURES[i]);
    CleanPlatformConforms(defaults, machine);
    PlatformChainsAreChecked(keys);
    assert [] + keys == keys;
    StringIsRead(Map(MergeObjects(defaults, machine)), Map(defaults), [], keys);
    CapacityIsRead(defaults, machine, "openai");
  }

  lemma UsesAreChains(i: nat)
    requires i < |USES|
    ensures USES[i].keys in AgentChains()
  {
    assert forall j | 0 <= j < |PROVIDERS| :: ["providers", PROVIDERS[j], "enabled"] in AgentChains();
    assert ["providers", PROVIDERS[0], "enabled"] == USES[0].keys;
    assert ["providers", PROVIDERS[1], "enabled"] == USES[1].keys;
    assert ["providers", PROVIDERS[2], "enabled"] == USES[2].keys;
    assert ["providers", PROVIDERS[3], "enabled"] == USES[3].keys;
  }

  lemma UseIsRead(defaults: Object, machine: Object, index: nat, i: nat)
    requires SelfValid(defaults) && Shaped(defaults) && SchemaFaults(defaults, machine) == {}
    requires index < |Agents(machine)| && Agents(machine)[index].Map? && i < |USES|
    ensures UseRuns(MergeObjects(defaults, machine),
                    MergedAgent(AgentDefaults(defaults, machine), Agents(machine)[index].entries), USES[i])
  {
    var agent := MergedAgent(AgentDefaults(defaults, machine), Agents(machine)[index].entries);
    CleanAgentConforms(defaults, machine, index);
    AgentPartIsAgent(index);
    UsesAreChains(i);
    AgentChainsAreChecked(AgentPart(index), USES[i].keys);
    ChainIsSafe(agent, AgentTemplate(AgentDefaultsOf(defaults).entries), [AgentPart(index)], USES[i].keys);
    CapacityIsRead(defaults, machine, Consumed(USES[i], ReadLeaf(agent, USES[i].keys).value));
  }

  /**
   End to end: when shaped, self-valid default values and machine values pass the schema phase, the
   cross-field phase raises nothing exactly if no mapping-valued webhook route, of an agent or of the
   defaults it inherits, names its provider by a list or a mapping. The check exempts routes.
   */
  lemma CrossFieldRunsExactly(defaults: Object, machine: Object)
    requires SelfValid(defaults) && Shaped(defaults) && SchemaFaults(defaults, machine) == {}
    ensures SchemaRuns(defaults, machine)
    ensures CrossFieldRuns(defaults, machine) <==>
      forall i | 0 <= i < |Agents(machine)| && Agents(machine)[i].Map? ::
        AgentWebhooksRun(MergedAgent(AgentDefaults(defaults, machine), Agents(machine)[i].entries))
  {
    forall i | 0 <= i < |FEATURES| ensures StatusRuns(MergeObjects(defaults, machine), FEATURES[i]) {
      StatusIsRead(defaults, machine, i);
    }
    forall index, i | 0 <= index < |Agents(machine)| && Agents(machine)[index].Map? && 0 <= i < |USES|
      ensures UseRuns(MergeObjects(defaults, machine),
                      MergedAgent(AgentDefaults(defaults, machine), Agents(machine)[index].entries), USES[i])
    {
      UseIsRead(defaults, machine, index, i);
    }
  }

  const SAMPLE_WEBHOOKS := Map(map["routes" := Map(map[])])
  const SAMPLE_DEFAULTS: Object := map["agents" := List([]), "agentDefaults" := Map(map["webhooks" := SAMPLE_WEBHOOKS])]

  lemma PlainParts(part: string)
    requires part == "agentDefaults" || IsAgentPart(part)
    ensures SchemaPart("webhooks") == "webhooks" && SchemaPart("routes") == "routes"
    ensures SchemaPart(part) == "agentDefaults" || SchemaPart(part) == "agents"
  {
    assert "webhooks"[|"webhooks"| - 1] == 's' && "routes"[|"routes"| - 1] == 's';
    assert "agentDefaults"[|"agentDefaults"| - 1] == 's';
  }

  lemma RoutesAreExempt(routes: Object, part: string)
    requires part == "agentDefaults" || IsAgentPart(part)
    ensures Conforms(Map(routes), Map(map[]), [part, "webhooks", "routes"])
    ensures Checked([part, "webhooks"])
  {
    PlainParts(part);
    assert SchemaPath([part, "webhooks"]) == [SchemaPart(part), "webhooks"];
    assert SchemaPath([part, "webhooks", "routes"]) == [SchemaPart(part), "webhooks", "routes"];
  }

  lemma AnyWebhooksConform(routes: Object, part: string)
    requires part == "agentDefaults" || IsAgentPart(part)
    ensures Conforms(Map(map["routes" := Map(routes)]), SAMPLE_WEBHOOKS, [part, "webhooks"])
  {
    RoutesAreExempt(routes, part);
    assert [part, "webhooks"] + ["routes"] == [part, "webhooks", "routes"];
    ConformsByKey(Map(map["routes" := Map(routes)]), SAMPLE_WEBHOOKS, [part, "webhooks"]);
  }

  /** Whatever the routes are, they conform. */
  lemma AnyRoutesConform(routes: Object, template: Object, part: string)
    requires part == "agentDefaults" || IsAgentPart(part)
    requires "webhooks" in template && template["webhooks"] == SAMPLE_WEBHOOKS
    ensures Conforms(Map(map["webhooks" := Map(map["routes" := Map(routes)])]), Map(template), [part])
  {
    AnyWebhooksConform(routes, part);
    AgentRootIsPlain(part);
    assert [part] + ["webhooks"] == [part, "webhooks"];
    ConformsByKey(Map(map["webhooks" := Map(map["routes" := Map(routes)])]), Map(template), [part]);
  }

  lemma SampleIsSelfValid()
    ensures SelfValid(SAMPLE_DEFAULTS)
  {
    AnyRoutesConform(map[], SAMPLE_DEFAULTS["agentDefaults"].entries, "agentDefaults");
    RootIsPlain();
    assert [] + ["agentDefaults"] == ["agentDefaults"] && [] + ["agents"] == ["agents"];
    assert SchemaPath(["agents"]) == [SchemaPart("agents")];
    assert Conforms(List([]), List([]), ["agents"]);
    ConformsByKey(Map(SAMPLE_DEFAULTS), Map(SAMPLE_DEFAULTS), []);
  }

  lemma UsesReadElsewhere(i: nat)
    requires i < |USES|
    ensures USES[i].keys != [] && USES[i].keys[0] != "webhooks" && USES[i].keys[0] != "name"
  {
  }

  lemma SampleIsShaped()
    ensures Shaped(SAMPLE_DEFAULTS)
  {
    var defaults := AgentDefaultsOf(SAMPLE_DEFAULTS).entries;
    assert defaults == map["webhooks" := SAMPLE_WEBHOOKS];
    forall i | 0 <= i < |USES| ensures OpenTemplate(AgentTemplate(defaults), USES[i].keys) {
      UsesReadElsewhere(i);
      assert USES[i].keys[0] !in AgentTemplate(defaults).entries;
    }
    assert forall i | 0 <= i < |FEATURES| :: StringLeaf(Map(SAMPLE_DEFAULTS), StatusChain(FEATURES[i]));
  }

  /** An agent whose one webhook route names its provider by an empty list. */
  const ODD_AGENT := Map(map["webhooks" := Map(map["routes" := Map(map["r" := Map(map["provider" := List([])])])])])

  /** The schema phase has nothing against it, and the cross-field phase raises. */
  lemma ListProviderRaises()
    ensures SelfValid(SAMPLE_DEFAULTS) && Shaped(SAMPLE_DEFAULTS)
    ensures SchemaClean(SAMPLE_DEFAULTS, map["agents" := List([ODD_AGENT])])
    ensures !CrossFieldRuns(SAMPLE_DEFAULTS, map["agents" := List([ODD_AGENT])])
  {
    var machine: Object := map["agents" := List([ODD_AGENT])];
    SampleIsSelfValid();
    SampleIsShaped();
    OddAgentIsClean();
    CrossFieldRunsExactly(SAMPLE_DEFAULTS, machine);
    assert Agents(machine)[0] == ODD_AGENT;
    OddProviderIsRead(AgentDefaults(SAMPLE_DEFAULTS, machine));
  }

  lemma OddAgentIsClean()
    ensures SchemaClean(SAMPLE_DEFAULTS, map["agents" := List([ODD_AGENT])])
  {
    var machine: Object := map["agents" := List([ODD_AGENT])];
    var defaults := Entries(SAMPLE_DEFAULTS, "agentDefaults");
    AgentPartIsAgent(0);
    AnyRoutesConform(map["r" := Map(map["provider" := List([])])], AgentTemplate(defaults).entries, AgentPart(0));
    assert AgentFaults(SAMPLE_DEFAULTS, ODD_AGENT, 0) == {};
    assert Agents(machine) == [ODD_AGENT];
    RootIsPlain();
    assert SchemaPath(["agents"]) == [SchemaPart("agents")] && [] + ["agents"] == ["agents"];
    assert Conforms(machine["agents"], SAMPLE_DEFAULTS["agents"], ["agents"]);
    ConformsByKey(Map(machine), Map(SAMPLE_DEFAULTS), []);
  }

  lemma OddProviderIsRead(defaults: Tree)
    ensures !AgentWebhooksRun(MergedAgent(defaults, ODD_AGENT.entries))
  {
    var route: Object := map["provider" := List([])];
    var routes: Object := map["r" := Map(route)];
    var webhooks: Object := map["routes" := Map(routes)];
    assert ODD_AGENT.entries == map["webhooks" := Map(webhooks)];
    var inherited := MergedEntry(defaults, ODD_AGENT.entries, "webhooks");
    var inheritedRoutes := MergedEntry(inherited, webhooks, "routes");
    var inheritedRoute := MergedEntry(inheritedRoutes, routes, "r");
    var inheritedProvider := MergedEntry(inheritedRoute, route, "provider");
    var agent := MergedAgent(defaults, ODD_AGENT.entries);
    var merged := Entries(agent.entries["webhooks"].entries, "routes");
    assert merged["r"].entries["provider"] == List([]);
    assert !RouteRuns(merged["r"]);
  }

  /** An entry of the override ends up merged over what the base has there. */
  lemma MergedEntry(base: Tree, override: Object, k: string) returns (inherited: Tree)
    requires k in override
    ensures var merged := DeepMerge(base, Map(override));
      merged.Map? && k in merged.entries && merged.entries[k] == DeepMerge(inherited, override[k])
  {
    inherited := if base.Map? && k in base.entries then base.entries[k] else Null;
  }

  /* The repository's own default values have the shape; only what the reads touch is written out. */

  function Switched(enabled: bool): Tree {
    Map(map["enabled" := Bool(enabled)])
  }

  const REPOSITORY_STATUSES := Map(map[
    "moderation" := Map(map["status" := Str("disabled")]), "promptInjection" := Map(map["status" := Str("disabled")])])

  const REPOSITORY_PROVIDERS := Map(map[
    "anthropic" := Switched(true), "openai" := Switched(true), "deepseek" := Switched(false), "zai" := Switched(false)])

  const REPOSITORY_AGENT: Object := map[
    "providers" := REPOSITORY_PROVIDERS,
    "harnesses" := Map(map["claudeCode" := Str("claude-opus-5")]),
    "mnemosyne" := Map(map["provider" := Str("anthropic")]),
    "failover" := Map(map["provider" := Str("openai"), "model" := Str("")]),
    "moa" := Map(map["aggregator" := Map(map["provider" := Str("anthropic")])]),
    "webhooks" := SAMPLE_WEBHOOKS]

  const REPOSITORY_DEFAULTS: Object := map[
    "policy" := Map(map["contentSafety" := REPOSITORY_STATUSES]),
    "agentDefaults" := Map(REPOSITORY_AGENT), "agents" := List([]), "models" := REPOSITORY_PROVIDERS]

  lemma OpenByTwo(template: Tree, keys: Path)
    requires template.Map? && |keys| == 2 && (keys[0] in template.entries ==> template.entries[keys[0]].Map?)
    ensures OpenTemplate(template, keys)
  {
    assert |keys[1..]| == 1;
  }

  lemma OpenByThree(template: Tree, keys: Path)
    requires template.Map? && |keys| == 3
    requires keys[0] in template.entries ==> IsMapOfMaps(template.entries[keys[0]])
    ensures OpenTemplate(template, keys)
  {
    if keys[0] in template.entries {
      OpenByTwo(template.entries[keys[0]], keys[1..]);
    }
  }

  lemma RepositoryUseIsOpen(i: nat)
    requires i < |USES|
    ensures OpenTemplate(AgentTemplate(REPOSITORY_AGENT), USES[i].keys)
  {
    var template := AgentTemplate(REPOSITORY_AGENT);
    assert IsMapOfMaps(template.entries["providers"]) && IsMapOfMaps(template.entries["moa"]);
    if |USES[i].keys| == 2 {
      OpenByTwo(template, USES[i].keys);
    } else {
      OpenByThree(template, USES[i].keys);
    }
  }

  lemma RepositoryStatusIsText(i: nat)
    requires i < |FEATURES|
    ensures StringLeaf(Map(REPOSITORY_DEFAULTS), StatusChain(FEATURES[i]))
  {
    var keys := StatusChain(FEATURES[i]);
    assert keys[1..] == ["contentSafety", FEATURES[i], "status"];
    assert keys[1..][1..] == [FEATURES[i], "status"];
    assert keys[1..][1..][1..] == ["status"];
    assert StringLeaf(REPOSITORY_STATUSES.entries[FEATURES[i]], ["status"]);
    assert StringLeaf(REPOSITORY_STATUSES, keys[1..][1..]);
    assert StringLeaf(Map(map["contentSafety" := REPOSITORY_STATUSES]), keys[1..]);
  }

  lemma RepositoryDefaultsAreShaped()
    ensures Shaped(REPOSITORY_DEFAULTS)
  {
    assert AgentDefaultsOf(REPOSITORY_DEFAULTS) == Map(REPOSITORY_AGENT);
    forall i | 0 <= i < |FEATURES| ensures StringLeaf(Map(REPOSITORY_DEFAULTS), StatusChain(FEATURES[i])) {
      RepositoryStatusIsText(i);
    }
    forall i | 0 <= i < |USES| ensures OpenTemplate(AgentTemplate(REPOSITORY_AGENT), USES[i].keys) {
      RepositoryUseIsOpen(i);
    }
  }
}
