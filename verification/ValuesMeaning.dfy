/**
 What it means that machine values pass the cross-field phase, stated by the literal keys of the merged values
 and without the vocabulary of the check.
 */
module ValuesMeaning {
  import opened Prelude
  import opened ConfigTree
  import opened Harnesses
  import opened MachineValues
  import opened ValuesContract
  import opened ValuesLaws

  /* The schema phase */

  predicate OfAgent(place: Path, tails: set<Path>) {
    place != [] && place[0] in {"agentDefaults", "agents"} && place[1..] in tails
  }

  /** Places that take any mapping. */
  predicate FreeMapping(place: Path) {
    OfAgent(place, {["config"], ["webhooks", "routes"], ["directEgress", "ssh", "hosts"]})
  }

  /** Places that take any list of strings. */
  predicate FreeList(place: Path) {
    || OfAgent(place, {["directEgress", "slackFQDNs"], ["directEgress", "edgeTtsFQDNs"]})
    || (|place| == 2 && place[0] == "egress" && place[1] in {"wildcardDomains", "exactDomains", "internalAllowedCIDRs"})
    || (place == ["policy", "notion", "allowedParentPageIds"])
    || (|place| == 4 && place[0] == "policy" && place[1] == "sourceControl" && place[2] == "github"
        && place[3] in {"allowedRepos", "forkRequiredOwners", "forkOwners"})
    || (|place| == 4 && place[0] == "policy" && place[1] == "workManagement" && place[2] == "jira"
        && place[3] in {"allowedProjects", "allowedAssignees", "allowedIssueTypes"})
    || (|place| == 4 && place[0] == "policy" && place[1] == "workManagement" && place[2] == "linear"
        && place[3] in {"allowedTeams", "allowedAssignees"})
    || (place == ["policy", "workManagement", "pagerduty", "allowedServiceIds"])
    || (|place| == 4 && place[0] == "policy" && place[1] == "dataAccess" && place[2] == "grafana"
        && place[3] in {"deniedDatasourceUids", "deniedDatasourceNames"})
    || (place == ["policy", "dataAccess", "elastic", "deniedIndexPatterns"])
  }

  lemma FreeMappingsAre(place: Path)
    ensures place in ANY_MAPPING_PATHS <==> FreeMapping(place)
  {
    if |place| == 2 {
      assert place == [place[0], place[1]] && place[1..] == [place[1]];
    } else if |place| == 3 {
      assert place == [place[0], place[1], place[2]] && place[1..] == [place[1], place[2]];
    } else if |place| == 4 {
      assert place == [place[0], place[1], place[2], place[3]] && place[1..] == [place[1], place[2], place[3]];
    }
  }

  lemma FreeListsAre(place: Path)
    ensures place in ANY_LIST_PATHS ==> FreeList(place)
  {
  }

  lemma ListsAreFree(place: Path)
    ensures FreeList(place) ==> place in ANY_LIST_PATHS
  {
    if |place| == 4 {
      assert place == [place[0], place[1], place[2], place[3]];
    } else if |place| == 3 {
      assert place == [place[0], place[1], place[2]];
    } else if |place| == 2 {
      assert place == [place[0], place[1]];
    }
  }

  lemma StringsMean(t: Tree)
    ensures IsStringList(t) <==> t.List? && forall item | item in t.items :: item.Str?
  {
    if t.List? && forall item | item in t.items :: item.Str? {
      forall i | 0 <= i < |t.items| ensures t.items[i].Str? {
        assert t.items[i] in t.items;
      }
    }
  }

  /** A part without an index stands for itself. */
  lemma PlainPartStays(part: string)
    requires part != "" ==> part[|part| - 1] != ']' && part[|part| - 1] != '\n'
    ensures SchemaPart(part) == part
  {
  }

  /** One level of the schema check: what the value must be, and what of it is checked further. */
  ghost predicate LevelOk(value: Tree, template: Tree, path: Path) {
    var place := SchemaPath(path);
    if FreeMapping(place) then value.Map?
    else if FreeList(place) then value.List? && forall item | item in value.items :: item.Str?
    else
      match template
      case Map(known) =>
        && value.Map?
        && forall key | key in value.entries ::
             key in known && Faults(value.entries[key], known[key], path + [key]) == {}
      case List(_) => value.List?
      case Bool(_) => value.Bool?
      case Int(_) => value.Int?
      case Str(_) => value.Str?
      case _ => true
  }

  lemma ConformsByLevel(value: Tree, template: Tree, path: Path)
    ensures Faults(value, template, path) == {} <==> LevelOk(value, template, path)
  {
    FreeMappingsAre(SchemaPath(path));
    FreeListsAre(SchemaPath(path));
    ListsAreFree(SchemaPath(path));
    StringsMean(value);
    if SchemaPath(path) !in ANY_MAPPING_PATHS && SchemaPath(path) !in ANY_LIST_PATHS && value.Map? && template.Map? {
      ConformsByKey(value, template, path);
    }
  }

  /** The first phase: the values against the defaults, every agent against the agent defaults and a name. */
  lemma SchemaCleanExactly(defaults: Object, machine: Object)
    requires HasMap(defaults, "agentDefaults")
    ensures SchemaFaults(defaults, machine) == {} <==>
      && Faults(Map(machine), Map(defaults), []) == {}
      && "agents" in machine && machine["agents"].List?
      && forall i | 0 <= i < |machine["agents"].items| ::
           machine["agents"].items[i].Map?
           && Faults(machine["agents"].items[i], Map(defaults["agentDefaults"].entries["name" := Str("")]),
                     ["agents[" + Decimal(i) + "]"]) == {}
  {
    if SchemaFaults(defaults, machine) == {} {
      CleanPartsConform(defaults, machine);
    } else {
      var f :| f in SchemaFaults(defaults, machine);
      if f !in Faults(Map(machine), Map(defaults), []) && "agents" in machine && machine["agents"].List? {
        var i :| 0 <= i < |machine["agents"].items| && f in AgentFaults(defaults, machine["agents"].items[i], i);
      }
    }
  }

  /* Reads */

  /** Reading key by key, with empty mappings for missing keys, finds what is at the path. */
  lemma {:induction false} ReadsThePath(value: Tree, keys: Path, t: Tree)
    requires keys != [] && t != Null
    ensures ReadLeaf(value, keys) == Some(t) <==> GetPath(value, keys) == Some(t)
    decreases |keys|
  {
    if value.Map? && |keys| > 1 {
      ReadsThePath(GetOr(value.entries, keys[0], Map(map[])), keys[1..], t);
      if keys[0] !in value.entries {
        EmptyChain(keys[1..]);
      }
    } else if value.Map? {
      assert keys == [keys[0]];
      GetOne(value, keys[0]);
    }
  }

  /** The capacity of this provider is switched on in the merged platform values. */
  predicate On(platform: Tree, provider: string) {
    GetPath(platform, ["models", provider, "enabled"]) == Some(Bool(true))
  }

  lemma CapacityMeans(platform: Object, provider: string)
    ensures HasCapacity(platform, provider) <==> provider == "" || On(Map(platform), provider)
  {
    ReadsThePath(Map(platform), ["models", provider, "enabled"], Bool(true));
  }

  /* Content safety */

  /** Each status is one of two, and moderating takes the capacity of openai. */
  predicate SafetyHolds(platform: Tree) {
    forall feature | feature in {"moderation", "promptInjection"} ::
      var status := GetPath(platform, ["policy", "contentSafety", feature, "status"]);
      status == Some(Str("disabled")) || (status == Some(Str("enabled")) && On(platform, "openai"))
  }

  lemma StatusMeans(platform: Object, feature: string)
    ensures StatusHolds(platform, feature) <==>
      var status := GetPath(Map(platform), ["policy", "contentSafety", feature, "status"]);
      status == Some(Str("disabled")) || (status == Some(Str("enabled")) && On(Map(platform), "openai"))
  {
    var keys := ["policy", "contentSafety", feature, "status"];
    ReadsThePath(Map(platform), keys, Str("disabled"));
    ReadsThePath(Map(platform), keys, Str("enabled"));
    CapacityMeans(platform, "openai");
  }

  lemma SafetyMeans(platform: Object)
    ensures StatusesHold(platform) <==> SafetyHolds(Map(platform))
  {
    StatusMeans(platform, "moderation");
    StatusMeans(platform, "promptInjection");
    assert FEATURES[0] == "moderation" && FEATURES[1] == "promptInjection";
    assert forall i | 0 <= i < |FEATURES| :: FEATURES[i] in {"moderation", "promptInjection"};
  }

  /* Providers in use */

  /** The value counts as a model that is set. */
  predicate IsSet(t: Tree) {
    t !in {Null, Bool(false), Str(""), Int(0), List([]), Map(map[]), Other("0.0"), Other("-0.0")}
  }

  /** The merged agent uses this provider. */
  predicate Uses(agent: Tree, provider: string) {
    || (provider in {"anthropic", "openai", "deepseek", "zai"}
        && GetPath(agent, ["providers", provider, "enabled"]) == Some(Bool(true)))
    || (provider == "anthropic" && GetPath(agent, ["harnesses", "claudeCode"]).Some?
        && IsSet(GetPath(agent, ["harnesses", "claudeCode"]).value))
    || GetPath(agent, ["failover", "provider"]) == Some(Str(provider))
    || GetPath(agent, ["mnemosyne", "provider"]) == Some(Str(provider))
    || GetPath(agent, ["moa", "aggregator", "provider"]) == Some(Str(provider))
  }

  /** Every provider that an agent uses has its capacity switched on. */
  ghost predicate CapacityHolds(platform: Tree, agent: Tree) {
    forall provider | provider != "" && Uses(agent, provider) :: On(platform, provider)
  }

  lemma SwitchMeans(agent: Tree, use: Use)
    requires use.Switch? && use.keys == ["providers", use.provider, "enabled"] && ReadUse(agent, use).Some?
    ensures Consumed(use, ReadUse(agent, use).value) ==
      if GetPath(agent, ["providers", use.provider, "enabled"]) == Some(Bool(true)) then use.provider else ""
  {
    ReadsThePath(agent, use.keys, Bool(true));
  }

  lemma ModelMeans(agent: Tree, use: Use)
    requires use == Model(["harnesses", "claudeCode"], "anthropic") && ReadUse(agent, use).Some?
    ensures var model := GetPath(agent, ["harnesses", "claudeCode"]);
      Consumed(use, ReadUse(agent, use).value) == if model.Some? && IsSet(model.value) then "anthropic" else ""
  {
    var read := ReadUse(agent, use).value;
    if read != Null {
      ReadsThePath(agent, use.keys, read);
    } else if GetPath(agent, use.keys).Some? && GetPath(agent, use.keys).value != Null {
      ReadsThePath(agent, use.keys, GetPath(agent, use.keys).value);
    }
  }

  lemma ChoiceMeans(agent: Tree, use: Use, provider: string)
    requires use.Choice? && use.keys != [] && ReadUse(agent, use).Some? && provider != ""
    ensures Consumed(use, ReadUse(agent, use).value) == provider <==> GetPath(agent, use.keys) == Some(Str(provider))
  {
    ReadsThePath(agent, use.keys, Str(provider));
  }

  lemma UsesAre(i: nat)
    requires i < 8
    ensures |USES| == 8
    ensures i < 4 ==> USES[i].Switch? && USES[i].keys == ["providers", USES[i].provider, "enabled"]
    ensures i < 4 ==> USES[i].provider == ["anthropic", "openai", "deepseek", "zai"][i]
    ensures i == 4 ==> USES[i] == Model(["harnesses", "claudeCode"], "anthropic")
    ensures i == 5 ==> USES[i] == Choice(["failover", "provider"])
    ensures i == 6 ==> USES[i] == Choice(["mnemosyne", "provider"])
    ensures i == 7 ==> USES[i] == Choice(["moa", "aggregator", "provider"])
  {
  }

  lemma ConsumedIsUsed(agent: Tree, i: nat)
    requires i < |USES| && ReadUse(agent, USES[i]).Some?
    ensures var c := Consumed(USES[i], ReadUse(agent, USES[i]).value); c == "" || Uses(agent, c)
  {
    UsesAre(i);
    if i < 4 {
      SwitchMeans(agent, USES[i]);
    } else if i == 4 {
      ModelMeans(agent, USES[i]);
    } else {
      var c := Consumed(USES[i], ReadUse(agent, USES[i]).value);
      if c != "" {
        ChoiceMeans(agent, USES[i], c);
      }
    }
  }

  ghost predicate AllRead(agent: Tree) {
    forall i | 0 <= i < |USES| :: ReadUse(agent, USES[i]).Some?
  }

  predicate ConsumedAt(agent: Tree, provider: string, i: nat) {
    i < |USES| && ReadUse(agent, USES[i]).Some? && Consumed(USES[i], ReadUse(agent, USES[i]).value) == provider
  }

  lemma SwitchIsConsumed(agent: Tree, provider: string) returns (i: nat)
    requires AllRead(agent) && provider in {"anthropic", "openai", "deepseek", "zai"}
    requires GetPath(agent, ["providers", provider, "enabled"]) == Some(Bool(true))
    ensures ConsumedAt(agent, provider, i)
  {
    i := if provider == "anthropic" then 0 else if provider == "openai" then 1 else if provider == "deepseek" then 2
         else 3;
    UsesAre(i);
    SwitchMeans(agent, USES[i]);
  }

  lemma ChoiceIsConsumed(agent: Tree, provider: string, i: nat)
    requires AllRead(agent) && provider != "" && 5 <= i < 8
    requires USES[i].keys != [] ==> GetPath(agent, USES[i].keys) == Some(Str(provider))
    ensures ConsumedAt(agent, provider, i)
  {
    UsesAre(i);
    ChoiceMeans(agent, USES[i], provider);
  }

  lemma UsedIsConsumed(agent: Tree, provider: string) returns (i: nat)
    requires AllRead(agent) && provider != "" && Uses(agent, provider)
    ensures ConsumedAt(agent, provider, i)
  {
    UsesAre(4);
    UsesAre(5);
    UsesAre(6);
    UsesAre(7);
    if GetPath(agent, ["failover", "provider"]) == Some(Str(provider)) {
      i := 5;
      ChoiceIsConsumed(agent, provider, i);
    } else if GetPath(agent, ["mnemosyne", "provider"]) == Some(Str(provider)) {
      i := 6;
      ChoiceIsConsumed(agent, provider, i);
    } else if GetPath(agent, ["moa", "aggregator", "provider"]) == Some(Str(provider)) {
      i := 7;
      ChoiceIsConsumed(agent, provider, i);
    } else if GetPath(agent, ["providers", provider, "enabled"]) == Some(Bool(true))
      && provider in {"anthropic", "openai", "deepseek", "zai"} {
      i := SwitchIsConsumed(agent, provider);
    } else {
      i := 4;
      ModelMeans(agent, USES[i]);
    }
  }

  lemma CapacitiesMean(platform: Object, agent: Tree)
    requires AllRead(agent)
    ensures UsesHold(platform, agent, USES) <==> CapacityHolds(Map(platform), agent)
  {
    if UsesHold(platform, agent, USES) {
      forall provider | provider != "" && Uses(agent, provider) ensures On(Map(platform), provider) {
        var i := UsedIsConsumed(agent, provider);
        assert UseHolds(platform, agent, USES[i]);
        CapacityMeans(platform, provider);
      }
    }
    if CapacityHolds(Map(platform), agent) {
      forall i | 0 <= i < |USES| ensures UseHolds(platform, agent, USES[i]) {
        ConsumedIsUsed(agent, i);
        CapacityMeans(platform, Consumed(USES[i], ReadUse(agent, USES[i]).value));
      }
    }
  }

  /* Names */

  /** A name that Kubernetes and Helm accept for a release. */
  ghost predicate DnsLabel(name: string) {
    && 0 < |name| < 54 && name[0] != '-' && name[|name| - 1] != '-'
    && forall c | c in name :: c in "abcdefghijklmnopqrstuvwxyz" + "0123456789" + "-"
  }

  /** Two hyphens in a row. */
  ghost predicate DoubleHyphen(name: string) {
    exists a, b :: name == a + ("--" + b)
  }

  lemma ReleaseNameMeans(name: string)
    ensures ReleaseName(name) <==> DnsLabel(name)
  {
    forall i | 0 <= i < |name|
      ensures LowerAlnum(name[i]) || name[i] == '-' <==>
        name[i] in "abcdefghijklmnopqrstuvwxyz" + "0123456789" + "-"
    {
      Routes.LettersAndDigits(name[i]);
      assert Routes.NameChar(name[i]) <==> LowerAlnum(name[i]) || name[i] == '-';
    }
  }

  lemma DoubleHyphenMeans(name: string)
    ensures HasDoubleHyphen(name) <==> DoubleHyphen(name)
  {
    if i :| 0 <= i < |name| - 1 && name[i] == '-' && name[i + 1] == '-' {
      assert name == name[..i] + ("--" + name[i + 2..]);
    }
    forall a, b | name == a + ("--" + b) ensures HasDoubleHyphen(name) {
      assert name[|a|] == '-' && name[|a| + 1] == '-';
    }
  }

  /** Every agent has a valid name of its own. */
  ghost predicate NamesDiffer(agents: seq<Tree>) {
    && (forall i | 0 <= i < |agents| && agents[i].Map? ::
          var name := GetPath(agents[i], ["name"]);
          name.Some? && name.value.Str? && DnsLabel(name.value.text))
    && forall i, j | 0 <= i < j < |agents| && agents[i].Map? && agents[j].Map? ::
         GetPath(agents[i], ["name"]) != GetPath(agents[j], ["name"])
  }

  lemma NamesMean(agents: seq<Tree>)
    ensures NamesHold(agents, |agents|) <==> NamesDiffer(agents)
  {
    forall i | 0 <= i < |agents| && agents[i].Map?
      ensures GetPath(agents[i], ["name"]) ==
        if "name" in agents[i].entries then Some(agents[i].entries["name"]) else None
      ensures NameHolds(agents[i].entries) <==>
        var name := GetPath(agents[i], ["name"]); name.Some? && name.value.Str? && DnsLabel(name.value.text)
    {
      GetOne(agents[i], "name");
      if NameOf(agents[i].entries).Str? {
        ReleaseNameMeans(NameOf(agents[i].entries).text);
      }
    }
  }

  /* Webhooks */

  /** A list of strings, none of them empty. */
  predicate Texts(t: Tree) {
    t.List? && forall item | item in t.items :: item.Str? && item.text != ""
  }

  /** What a present option of a webhook route must be. */
  predicate OptionOk(key: string, value: Tree) {
    match key
    case "provider" =>
      value.Str? && value.text in {"pagerduty", "github", "gitlab", "svix", "generic-v2", "alertmanager"}
    case "enabled" => value.Bool?
    case "deliver_only" => value.Bool?
    case "description" => value.Str?
    case "prompt" => value.Str?
    case "script" => value.Str?
    case "deliver" => value.Str?
    case "events" => Texts(value)
    case "skills" => Texts(value)
    case "filters" => value.Map? || (value.List? && forall item | item in value.items :: item.Map?)
    case "deliver_extra" => value.Map?
    case _ => false
  }

  /** A webhook route names its provider, and delivers somewhere but to the log if that is all it does. */
  ghost predicate RouteOk(name: string, route: Tree) {
    && Routes.PlainName(name) && route.Map? && "provider" in route.entries
    && (forall key | key in route.entries :: OptionOk(key, route.entries[key]))
    && (GetPath(route, ["deliver_only"]) == Some(Bool(true)) ==>
          "deliver" in route.entries && route.entries["deliver"] != Str("log"))
  }

  lemma TextsMean(t: Tree)
    ensures IsNonEmptyStrings(t) <==> Texts(t)
  {
    if Texts(t) {
      forall i | 0 <= i < |t.items| ensures t.items[i].Str? && t.items[i].text != "" {
        assert t.items[i] in t.items;
      }
    }
  }

  lemma FiltersMean(t: Tree)
    ensures IsFilters(t) <==> t.Map? || (t.List? && forall item | item in t.items :: item.Map?)
  {
    if t.List? && forall item | item in t.items :: item.Map? {
      forall i | 0 <= i < |t.items| ensures t.items[i].Map? {
        assert t.items[i] in t.items;
      }
    }
  }

  lemma FieldListsAre()
    ensures TEXT_FIELDS[0] == "description" && TEXT_FIELDS[1] == "prompt" && TEXT_FIELDS[2] == "script"
    ensures TEXT_FIELDS[3] == "deliver" && LIST_FIELDS[0] == "events" && LIST_FIELDS[1] == "skills"
    ensures |TEXT_FIELDS| == 4 && |LIST_FIELDS| == 2
  {
  }

  lemma TextFieldsMean(route: Object)
    ensures TextsHold(route, TEXT_FIELDS) <==>
      forall key | key in route && key in {"description", "prompt", "script", "deliver"} :: OptionOk(key, route[key])
  {
    FieldListsAre();
    if TextsHold(route, TEXT_FIELDS) {
      forall key | key in route && key in {"description", "prompt", "script", "deliver"} ensures route[key].Str? {
        var i := if key == "description" then 0 else if key == "prompt" then 1 else if key == "script" then 2 else 3;
        assert TEXT_FIELDS[i] == key;
      }
    }
  }

  lemma ListFieldsMean(route: Object)
    ensures ListsHold(route, LIST_FIELDS) <==>
      forall key | key in route && key in {"events", "skills"} :: OptionOk(key, route[key])
  {
    FieldListsAre();
    forall key | key in route ensures IsNonEmptyStrings(route[key]) <==> Texts(route[key]) {
      TextsMean(route[key]);
    }
    if ListsHold(route, LIST_FIELDS) {
      forall key | key in route && key in {"events", "skills"} ensures Texts(route[key]) {
        assert LIST_FIELDS[if key == "events" then 0 else 1] == key;
      }
    }
  }

  /** The options other than texts and lists. */
  lemma OtherFieldsMean(route: Object)
    ensures ProviderHolds(route) && SwitchHolds(route) && OptionsHold(route) <==>
      && "provider" in route
      && (forall key | key in route && key in {"provider", "enabled", "deliver_only", "filters", "deliver_extra"} ::
            OptionOk(key, route[key]))
      && (GetPath(Map(route), ["deliver_only"]) == Some(Bool(true)) ==>
            "deliver" in route && route["deliver"] != Str("log"))
  {
    GetOne(Map(route), "deliver_only");
    if "filters" in route {
      FiltersMean(route["filters"]);
    }
  }

  predicate TextKey(key: string) {
    key in {"description", "prompt", "script", "deliver"}
  }

  predicate ListKey(key: string) {
    key in {"events", "skills"}
  }

  predicate OtherKey(key: string) {
    key in {"provider", "enabled", "deliver_only", "filters", "deliver_extra"}
  }

  lemma KnownKeys(key: string, value: Tree)
    ensures key in ROUTE_FIELDS <==> TextKey(key) || ListKey(key) || OtherKey(key)
    ensures OptionOk(key, value) ==> key in ROUTE_FIELDS
  {
  }

  lemma RouteMeans(name: string, route: Tree)
    ensures RouteHolds(name, route) <==> RouteOk(name, route)
  {
    Routes.ValidNameIsPlain(name);
    if route.Map? {
      TextFieldsMean(route.entries);
      ListFieldsMean(route.entries);
      OtherFieldsMean(route.entries);
      forall key | key in route.entries
        ensures key in ROUTE_FIELDS <==> TextKey(key) || ListKey(key) || OtherKey(key)
        ensures OptionOk(key, route.entries[key]) ==> key in ROUTE_FIELDS
      {
        KnownKeys(key, route.entries[key]);
      }
    }
  }

  /** Two elements of the list are different. */
  predicate NoneTwice(items: seq<Tree>) {
    |set item | item in items| == |items|
  }

  /** The webhook section of a merged agent, if it has one, and the name of the agent that goes with it. */
  ghost predicate WebhooksOk(configured: Tree, agent: Tree) {
    var webhooks := GetPath(agent, ["webhooks"]);
    webhooks.Some? && webhooks.value.Map? ==>
      && (forall name | GetPath(configured, ["name"]) == Some(Str(name)) :: !DoubleHyphen(name))
      && (var toolsets := GetPath(agent, ["webhooks", "toolsets"]);
          toolsets.Some? && Texts(toolsets.value) && NoneTwice(toolsets.value.items))
      && forall name | GetPath(agent, ["webhooks", "routes", name]).Some? ::
           RouteOk(name, GetPath(agent, ["webhooks", "routes", name]).value)
  }

  lemma ToolsetsMean(t: Tree)
    ensures ToolsetsHold(t) <==> Texts(t) && NoneTwice(t.items)
  {
    TextsMean(t);
    if t.List? {
      DistinctByCount(t.items);
      assert Elements(t.items) == set item | item in t.items;
    }
  }

  lemma RoutesAt(agent: Tree, name: string)
    requires agent.Map? && HasMap(agent.entries, "webhooks")
    ensures var routes := Entries(agent.entries["webhooks"].entries, "routes");
      GetPath(agent, ["webhooks", "routes", name]) == if name in routes then Some(routes[name]) else None
  {
    var webhooks := agent.entries["webhooks"].entries;
    assert ["webhooks", "routes", name] == ["webhooks"] + ["routes", name] && ["routes", name] == ["routes"] + [name];
    BelowTheHead(agent.entries, "webhooks", ["routes", name]);
    BelowTheHead(webhooks, "routes", [name]);
    if "routes" in webhooks {
      GetOne(webhooks["routes"], name);
    }
  }

  lemma WebhooksMean(configured: Object, agent: Tree)
    requires agent.Map?
    ensures AgentWebhooksHold(configured, agent) <==> WebhooksOk(Map(configured), agent)
  {
    GetOne(agent, "webhooks");
    GetOne(Map(configured), "name");
    if HasMap(agent.entries, "webhooks") {
      var webhooks := agent.entries["webhooks"].entries;
      assert ["webhooks", "toolsets"] == ["webhooks"] + ["toolsets"];
      BelowTheHead(agent.entries, "webhooks", ["toolsets"]);
      GetOne(Map(webhooks), "toolsets");
      ToolsetsMean(GetOr(webhooks, "toolsets", Null));
      forall name ensures GetPath(agent, ["webhooks", "routes", name]) ==
        var routes := Entries(webhooks, "routes"); if name in routes then Some(routes[name]) else None
      {
        RoutesAt(agent, name);
      }
      forall name: string, route: Tree ensures RouteHolds(name, route) <==> RouteOk(name, route) {
        RouteMeans(name, route);
      }
      forall name: string ensures HasDoubleHyphen(name) <==> DoubleHyphen(name) {
        DoubleHyphenMeans(name);
      }
    }
  }

  /* Direct SSH */

  /** A host has a name, and lists names that lead to it at most. */
  ghost predicate HostOk(host: string, config: Tree) {
    && host != "" && config.Map? && (forall key | key in config.entries :: key == "cnameChain")
    && forall key | key in config.entries :: config.entries[key].List? &&
         forall item | item in config.entries[key].items :: item.Str?
  }

  /** The SSH hosts of an agent or of the agent defaults, if there are any. */
  ghost predicate SshOk(configured: Tree) {
    var hosts := GetPath(configured, ["directEgress", "ssh", "hosts"]);
    hosts.Some? && hosts.value != Null ==>
      hosts.value.Map? && forall host | host in hosts.value.entries :: HostOk(host, hosts.value.entries[host])
  }

  lemma HostMeans(host: string, config: Tree)
    ensures HostHolds(host, config) <==> HostOk(host, config)
  {
    if config.Map? {
      StringsMean(GetOr(config.entries, "cnameChain", List([])));
      forall key | key in config.entries ensures key in {"cnameChain"} <==> key == "cnameChain" {
      }
    }
  }

  lemma SshMeans(configured: Object)
    ensures SshHolds(configured) <==> SshOk(Map(configured))
  {
    assert ["directEgress", "ssh", "hosts"] == ["directEgress"] + ["ssh", "hosts"];
    assert ["ssh", "hosts"] == ["ssh"] + ["hosts"];
    BelowTheHead(configured, "directEgress", ["ssh", "hosts"]);
    if HasMap(configured, "directEgress") {
      var egress := configured["directEgress"].entries;
      BelowTheHead(egress, "ssh", ["hosts"]);
      if "ssh" in egress {
        GetOne(egress["ssh"], "hosts");
      }
    }
    forall host: string, config: Tree ensures HostHolds(host, config) <==> HostOk(host, config) {
      HostMeans(host, config);
    }
  }

  /* The whole cross-field phase */

  /** The agents as they are configured. */
  function Configured(machine: Object): seq<Tree> {
    if "agents" in machine && machine["agents"].List? then machine["agents"].items else []
  }

  /** The agent over the defaults for agents, the machine's own over the repository's. */
  function MergedOver(defaults: Object, machine: Object, agent: Tree): Tree {
    DeepMerge(DeepMerge(GetOr(defaults, "agentDefaults", Map(map[])), GetOr(machine, "agentDefaults", Map(map[]))),
              agent)
  }

  /** What the platform and its agents must agree on. */
  ghost predicate Contract(defaults: Object, machine: Object) {
    var platform, agents := DeepMerge(Map(defaults), Map(machine)), Configured(machine);
    && SafetyHolds(platform)
    && NamesDiffer(agents)
    && (forall i | 0 <= i < |agents| && agents[i].Map? ::
          var agent := MergedOver(defaults, machine, agents[i]);
          CapacityHolds(platform, agent) && WebhooksOk(agents[i], agent) && SshOk(agents[i]))
    && SshOk(GetOr(machine, "agentDefaults", Map(map[])))
  }

  lemma NoSshInScalars(t: Tree)
    ensures !t.Map? ==> SshOk(t)
  {
  }

  /** Values without schema faults, over shaped and self-valid defaults, pass the cross-field phase exactly then. */
  lemma PassesExactly(defaults: Object, machine: Object)
    requires SelfValid(defaults) && Shaped(defaults) && SchemaFaults(defaults, machine) == {}
    ensures CrossFieldHolds(defaults, machine) <==> Contract(defaults, machine)
  {
    var platform, agents := MergeObjects(defaults, machine), Agents(machine);
    assert DeepMerge(Map(defaults), Map(machine)) == Map(platform) && Configured(machine) == agents;
    SafetyMeans(platform);
    NamesMean(agents);
    forall i | 0 <= i < |agents| && agents[i].Map?
      ensures var agent := MergedOver(defaults, machine, agents[i]);
        AgentHolds(platform, AgentDefaults(defaults, machine), agents[i].entries) <==>
          CapacityHolds(Map(platform), agent) && WebhooksOk(agents[i], agent) && SshOk(agents[i])
    {
      AgentMeans(defaults, machine, i);
    }
    NoSshInScalars(AgentDefaultsOf(machine));
    if AgentDefaultsOf(machine).Map? {
      SshMeans(AgentDefaultsOf(machine).entries);
    }
  }

  lemma AgentMeans(defaults: Object, machine: Object, i: nat)
    requires SelfValid(defaults) && Shaped(defaults) && SchemaFaults(defaults, machine) == {}
    requires i < |Agents(machine)| && Agents(machine)[i].Map?
    ensures var configured := Agents(machine)[i]; var agent := MergedOver(defaults, machine, configured);
      var platform := MergeObjects(defaults, machine);
      AgentHolds(platform, AgentDefaults(defaults, machine), configured.entries) <==>
        CapacityHolds(Map(platform), agent) && WebhooksOk(configured, agent) && SshOk(configured)
  {
    var configured := Agents(machine)[i];
    var agent := MergedAgent(AgentDefaults(defaults, machine), configured.entries);
    assert agent == MergedOver(defaults, machine, configured);
    forall j | 0 <= j < |USES| ensures ReadUse(agent, USES[j]).Some? {
      UseIsRead(defaults, machine, i, j);
    }
    CapacitiesMean(MergeObjects(defaults, machine), agent);
    WebhooksMean(configured.entries, agent);
    SshMeans(configured.entries);
  }

  /**
   Every provider that a merged agent uses, and the one that moderates, has its capacity in the merged platform:
   in all values that pass, and no values in which one has not pass.
   */
  lemma UsedCapacityIsOn(defaults: Object, machine: Object, i: nat, provider: string)
    requires SelfValid(defaults) && Shaped(defaults) && SchemaFaults(defaults, machine) == {}
    requires i < |Configured(machine)| && provider != ""
    requires Uses(MergedOver(defaults, machine, Configured(machine)[i]), provider)
    ensures CrossFieldHolds(defaults, machine) ==> On(DeepMerge(Map(defaults), Map(machine)), provider)
  {
    PassesExactly(defaults, machine);
    CleanPartsConform(defaults, machine);
  }
}
