/** Every leaf of the reconciled Hermes sections: the user's, the desired one, or the endpoint that was declared. */
module HermesLeaves {
  import opened Prelude
  import opened ConfigTree
  import opened Hermes
  import opened HermesLaws
  import opened HermesEndpoints

  /** The provider a route ends up with: the user's if it is declared, and otherwise the desired one. */
  function Chosen(theirs: Object, wanted: Object, providers: Object, default: string): Tree {
    if "provider" in theirs && theirs["provider"].Str? && theirs["provider"].text in providers then theirs["provider"]
    else if "provider" in wanted then wanted["provider"]
    else Str(default)
  }

  /** The user names a provider that is not declared. */
  predicate NamesStranger(theirs: Object, providers: Object) {
    "provider" in theirs && !(theirs["provider"].Str? && theirs["provider"].text in providers)
  }

  /** What the declared provider says about its endpoint, where it is described by a mapping. */
  function Endpoint(providers: Object, provider: Tree, k: string): Option<Tree> {
    if provider.Str? && HasMap(providers, provider.text) then
      match k
      case "base_url" => Some(GetOr(providers[provider.text].entries, "api", Null))
      case "key_env" => Some(GetOr(providers[provider.text].entries, "key_env", Null))
      case "api_mode" => Some(GetOr(providers[provider.text].entries, "transport", Null))
      case _ => None
    else None
  }

  /**
   A leaf of a reconciled route. The user's leaves survive where they are among `kept`; with an undeclared
   provider the desired models replace the user's, so far as there are any.
   */
  function RouteLeaf(theirs: Object, wanted: Object, providers: Object, kept: set<string>, default: string, k: string)
    : Option<Tree>
  {
    var provider := Chosen(theirs, wanted, providers, default);
    if k == "provider" then Some(provider)
    else if Endpoint(providers, provider, k).Some? then Endpoint(providers, provider, k)
    else if NamesStranger(theirs, providers) && k in {"default", "model"} && k in wanted then Some(wanted[k])
    else if k in kept && k in theirs then Some(theirs[k])
    else if k in wanted then Some(wanted[k]) else None
  }

  /** The desired provider, or what stands for a missing one, is declared and described by a mapping. */
  predicate DesiredDescribed(wanted: Object, providers: Object, default: string) {
    Described(providers, GetOr(wanted, "provider", Str(default)))
  }

  ghost predicate SameNames(leaves: seq<string>, names: set<string>) {
    forall n :: n in leaves <==> n in names
  }

  lemma LockedRouteLeaf(theirs: Object, wanted: Object, leaves: seq<string>, kept: set<string>, providers: Object,
      default: string, k: string)
    requires SameNames(leaves, kept) && "provider" in kept && DesiredDescribed(wanted, providers, default)
    requires RouteOf(PreserveLeaves(wanted, theirs, leaves), wanted, providers, default).Some?
    ensures Lookup(RouteOf(PreserveLeaves(wanted, theirs, leaves), wanted, providers, default).value, k) ==
      RouteLeaf(theirs, wanted, providers, kept, default, k)
  {
    var x := PreserveLeaves(wanted, theirs, leaves);
    var chosen := Chosen(theirs, wanted, providers, default);
    assert Lookup(x, k) == if k in kept && k in theirs then Some(theirs[k]) else Lookup(wanted, k);
    if NamesStranger(theirs, providers) {
      assert ProviderName(x, default) == theirs["provider"] && chosen == ProviderName(wanted, default);
    } else {
      assert ProviderName(x, default) == chosen;
    }
  }

  /* Through merge, preservation and locking */

  /** The provider that the reconciled model ends up with. */
  function ModelProvider(existing: Object, desired: Object): Tree {
    Chosen(Entries(existing, "model"), Entries(desired, "model"), Entries(desired, "providers"), "anthropic")
  }

  /** What the other routes default to. */
  function ModelProviderName(existing: Object, desired: Object): string {
    if ModelProvider(existing, desired).Str? then ModelProvider(existing, desired).text else ""
  }

  /** Routes are locked, and the desired model names a described provider. */
  predicate LocksModel(existing: Object, desired: Object) {
    && HasMap(desired, "providers") && HasMap(desired, "model") && ModelLocks(existing)
    && DesiredDescribed(desired["model"].entries, desired["providers"].entries, "anthropic")
  }

  /** The reconciler ran through to `r`, by way of the assembled configuration `a`. */
  ghost predicate Reconciles(existing: Object, desired: Object, show: Show, a: Object, r: Object) {
    && HermesOf(existing, desired, show) == Some(r) && a == Assembled(existing, desired)
    && HasSections(a, existing, desired) && LocksRoutes(a, desired) && IsLocked(a, desired, show, r)
    && SameAt(a, desired, "providers") && SameAt(r, desired, "providers")
  }

  lemma RunIsLocked(existing: Object, desired: Object, show: Show, r: Object)
    requires HermesOf(existing, desired, show) == Some(r) && LocksModel(existing, desired)
    ensures Reconciles(existing, desired, show, Assembled(existing, desired), r)
  {
    var a := Assembled(existing, desired);
    AssembledSections(existing, desired);
    ProvidersAreOwned(existing, desired);
    LockedSatisfies(a, desired, show);
    assert Lookup(a, "model") == SectionOf(existing, desired, "model", MODEL_LEAVES);
  }

  /** The reconciled model, leaf by leaf. */
  lemma ModelLeaf(existing: Object, desired: Object, show: Show, r: Object, k: string)
    requires HermesOf(existing, desired, show) == Some(r) && LocksModel(existing, desired)
    ensures HasMap(r, "model") && Lookup(r["model"].entries, k) ==
      RouteLeaf(Entries(existing, "model"), desired["model"].entries, desired["providers"].entries,
                {"default", "provider", "context_length", "persist_switch_by_default"}, "anthropic", k)
  {
    var a, wanted := Assembled(existing, desired), desired["model"].entries;
    RunIsLocked(existing, desired, show, r);
    assert Lookup(a, "model") == SectionOf(existing, desired, "model", MODEL_LEAVES);
    ModelLeafNames();
    AnthropicIsEnough(Entries(existing, "model"), wanted, show);
    LockedRouteLeaf(Entries(existing, "model"), wanted, MODEL_LEAVES,
                    {"default", "provider", "context_length", "persist_switch_by_default"},
                    desired["providers"].entries, "anthropic", k);
  }

  lemma ModelLeafNames()
    ensures SameNames(MODEL_LEAVES, {"default", "provider", "context_length", "persist_switch_by_default"})
    ensures SameNames(ROUTE_LEAVES, {"model", "provider", "context_length"})
    ensures SameNames(AGENT_LEAVES, {"reasoning_effort", "service_tier", "system_prompt"})
  {
  }

  /** Where the desired model names its provider, the default is not used. */
  lemma AnthropicIsEnough(theirs: Object, wanted: Object, show: Show)
    ensures var default := PyStr(show, GetOr(wanted, "provider", Str("anthropic")));
      forall providers :: RouteOf(PreserveLeaves(wanted, theirs, MODEL_LEAVES), wanted, providers, default) ==
        RouteOf(PreserveLeaves(wanted, theirs, MODEL_LEAVES), wanted, providers, "anthropic")
  {
  }

  /** The other routes default to the provider of the reconciled model. */
  lemma DefaultIsModelProvider(existing: Object, desired: Object, show: Show, r: Object)
    requires HermesOf(existing, desired, show) == Some(r) && LocksModel(existing, desired)
    ensures HasMap(r, "model") && ModelProvider(existing, desired).Str?
    ensures DefaultProvider(show, r["model"].entries, desired["model"].entries) == ModelProviderName(existing, desired)
  {
    ModelLeaf(existing, desired, show, r, "provider");
  }

  /**
   Whatever is declared, the other routes default to the provider chosen for the model, and to "anthropic" where
   neither model names one.
   */
  lemma DefaultIsChosen(model: Object, wanted: Object, providers: Object, show: Show, locked: Object)
    requires RouteOf(model, wanted, providers, PyStr(show, GetOr(wanted, "provider", Str("anthropic")))) == Some(locked)
    ensures DefaultProvider(show, locked, wanted) == PyStr(show, Chosen(model, wanted, providers, "anthropic"))
  {
  }

  /** The reconciled delegation, leaf by leaf, where one is desired and the user's is a mapping or absent. */
  lemma DelegationLeaf(existing: Object, desired: Object, show: Show, r: Object, k: string)
    requires HermesOf(existing, desired, show) == Some(r) && LocksModel(existing, desired)
    requires HasMap(desired, "delegation") && ("delegation" in existing ==> existing["delegation"].Map?)
    requires DesiredDescribed(desired["delegation"].entries, desired["providers"].entries,
                              ModelProviderName(existing, desired))
    ensures HasMap(r, "delegation") && Lookup(r["delegation"].entries, k) ==
      RouteLeaf(Entries(existing, "delegation"), desired["delegation"].entries, desired["providers"].entries,
                {"model", "provider", "context_length"}, ModelProviderName(existing, desired), k)
  {
    var a := Assembled(existing, desired);
    RunIsLocked(existing, desired, show, r);
    DefaultIsModelProvider(existing, desired, show, r);
    assert Lookup(a, "delegation") == SectionOf(existing, desired, "delegation", ROUTE_LEAVES);
    assert IsLockedDelegation(a, desired, ModelProviderName(existing, desired), r);
    ModelLeafNames();
    LockedRouteLeaf(Entries(existing, "delegation"), desired["delegation"].entries, ROUTE_LEAVES,
                    {"model", "provider", "context_length"}, desired["providers"].entries,
                    ModelProviderName(existing, desired), k);
  }

  /** The user's auxiliary route of this name, as far as there is one. */
  function TheirAuxiliary(existing: Object, n: string): Object {
    Entries(Entries(existing, "auxiliary"), n)
  }

  /** Every desired auxiliary route, leaf by leaf; routes that are not desired are gone. */
  lemma AuxiliaryLeaf(existing: Object, desired: Object, show: Show, r: Object, n: string, k: string)
    requires HermesOf(existing, desired, show) == Some(r) && LocksModel(existing, desired)
    requires HasMap(desired, "auxiliary") && HasMap(desired["auxiliary"].entries, n)
    requires DesiredDescribed(desired["auxiliary"].entries[n].entries, desired["providers"].entries,
                              ModelProviderName(existing, desired))
    ensures HasMap(r, "auxiliary") && r["auxiliary"].entries.Keys == desired["auxiliary"].entries.Keys
    ensures HasMap(r["auxiliary"].entries, n) && Lookup(r["auxiliary"].entries[n].entries, k) ==
      RouteLeaf(TheirAuxiliary(existing, n), desired["auxiliary"].entries[n].entries, desired["providers"].entries,
                {"model", "provider", "context_length"}, ModelProviderName(existing, desired), k)
  {
    var a, default := Assembled(existing, desired), ModelProviderName(existing, desired);
    var wanted, providers := desired["auxiliary"].entries, desired["providers"].entries;
    RunIsLocked(existing, desired, show, r);
    DefaultIsModelProvider(existing, desired, show, r);
    assert Lookup(a, "auxiliary") == AuxiliarySection(existing, desired);
    assert IsLockedAuxiliary(a, desired, default, r);
    assert LockedRoute(a["auxiliary"].entries[n], GetOr(wanted, n, Map(map[])), providers, default)
           == Some(r["auxiliary"].entries[n]);
    ModelLeafNames();
    LockedRouteLeaf(TheirAuxiliary(existing, n), wanted[n].entries, ROUTE_LEAVES,
                    {"model", "provider", "context_length"}, providers, default, k);
  }

  /* What that means for a user */

  /** A user's delegation with a declared provider keeps its model, its provider and its context length. */
  lemma DelegationSurvives(existing: Object, desired: Object, show: Show, r: Object, k: string)
    requires HermesOf(existing, desired, show) == Some(r) && LocksModel(existing, desired)
    requires HasMap(desired, "delegation") && HasMap(existing, "delegation")
    requires DesiredDescribed(desired["delegation"].entries, desired["providers"].entries,
                              ModelProviderName(existing, desired))
    requires !NamesStranger(existing["delegation"].entries, desired["providers"].entries)
    requires k in {"model", "provider", "context_length"} && k in existing["delegation"].entries
    ensures HasMap(r, "delegation") && Lookup(r["delegation"].entries, k) == Some(existing["delegation"].entries[k])
  {
    DelegationLeaf(existing, desired, show, r, k);
  }

  /** So does a user's auxiliary route of a desired name. */
  lemma AuxiliarySurvives(existing: Object, desired: Object, show: Show, r: Object, n: string, k: string)
    requires HermesOf(existing, desired, show) == Some(r) && LocksModel(existing, desired)
    requires HasMap(desired, "auxiliary") && HasMap(desired["auxiliary"].entries, n)
    requires DesiredDescribed(desired["auxiliary"].entries[n].entries, desired["providers"].entries,
                              ModelProviderName(existing, desired))
    requires !NamesStranger(TheirAuxiliary(existing, n), desired["providers"].entries)
    requires k in {"model", "provider", "context_length"} && k in TheirAuxiliary(existing, n)
    ensures HasMap(r, "auxiliary") && HasMap(r["auxiliary"].entries, n)
    ensures Lookup(r["auxiliary"].entries[n].entries, k) == Some(TheirAuxiliary(existing, n)[k])
  {
    AuxiliaryLeaf(existing, desired, show, r, n, k);
  }
}
