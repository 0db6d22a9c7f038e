/** Reconciled routes point at declared providers, and at nothing but their declared endpoints. */
module HermesEndpoints {
  import opened Prelude
  import opened ConfigTree
  import opened Hermes
  import opened HermesLaws

  /** The route names a declared provider, and has exactly the endpoint of a provider described by a mapping. */
  predicate EndpointLocked(route: Object, providers: Object) {
    && "provider" in route && Declared(providers, route["provider"])
    && (providers[route["provider"].text].Map? ==>
          var entry := providers[route["provider"].text].entries;
          && Lookup(route, "base_url") == Some(GetOr(entry, "api", Null))
          && Lookup(route, "key_env") == Some(GetOr(entry, "key_env", Null))
          && Lookup(route, "api_mode") == Some(GetOr(entry, "transport", Null)))
  }

  /** `name` is declared, and described by a mapping. */
  predicate Described(providers: Object, name: Tree) {
    Declared(providers, name) && providers[name.text].Map?
  }

  predicate Names(providers: Object, route: Object) {
    "provider" in route && Described(providers, route["provider"])
  }

  /** What the locking needs of the desired configuration. */
  predicate DesiredRoutesDescribed(desired: Object) {
    && HasMap(desired, "providers") && HasMap(desired, "model")
    && var providers := desired["providers"].entries;
       && Described(providers, GetOr(desired["model"].entries, "provider", Str("anthropic")))
       && (HasMap(desired, "delegation") ==> Names(providers, desired["delegation"].entries))
       && forall n | n in Entries(desired, "auxiliary") && Entries(desired, "auxiliary")[n].Map? ::
            Names(providers, Entries(desired, "auxiliary")[n].entries)
  }

  /** A locked route names a declared provider iff it did before, or the desired one does. */
  lemma RouteIsLocked(route: Object, desired: Object, providers: Object, default: string)
    requires RouteOf(route, desired, providers, default).Some?
    ensures var y := RouteOf(route, desired, providers, default).value;
      && (Declared(providers, ProviderName(y, default)) <==>
            Declared(providers, ProviderName(route, default)) || Declared(providers, ProviderName(desired, default)))
      && (Declared(providers, ProviderName(y, default))
          && ("provider" in route || Described(providers, Str(default))) ==>
            EndpointLocked(y, providers))
  {
    RouteNamesItsProvider(route, desired, providers, default);
  }

  const LOCKED := {"provider", "base_url", "key_env", "api_mode"}

  /**
   A route whose provider is declared keeps everything but its endpoint. Any other route takes the
   desired provider together with the desired model and default, so far as there are any.
   */
  lemma RouteFallsBackAsAWhole(route: Object, desired: Object, providers: Object, default: string)
    requires RouteOf(route, desired, providers, default).Some?
    ensures var y := RouteOf(route, desired, providers, default).value;
      var from := if Declared(providers, ProviderName(route, default)) then route else desired;
      && ProviderName(y, default) == ProviderName(from, default)
      && (forall k | k in {"default", "model"} :: if k in from then k in y && y[k] == from[k] else SameAt(y, route, k))
      && (forall k | k !in LOCKED && k !in {"default", "model"} :: SameAt(y, route, k))
  {
  }

  /** Of the agent section exactly three leaves are the user's; everything else is as desired. */
  lemma AgentChoicesSurvive(existing: Object, desired: Object, show: Show, k: string)
    requires HermesOf(existing, desired, show).Some? && HasMap(desired, "agent")
    ensures var r := HermesOf(existing, desired, show).value;
      HasMap(r, "agent") && Lookup(r["agent"].entries, k) ==
        if k in {"reasoning_effort", "service_tier", "system_prompt"} && k in Entries(existing, "agent") then
          Some(Entries(existing, "agent")[k])
        else Lookup(desired["agent"].entries, k)
  {
    var a := Assembled(existing, desired);
    AssembledSections(existing, desired);
    LockedSatisfies(a, desired, show);
    assert Lookup(a, "agent") == AgentSection(existing, desired);
    assert k in AGENT_LEAVES <==> k in {"reasoning_effort", "service_tier", "system_prompt"};
  }

  /** The reconciled model is the preserved one, locked. */
  lemma ReconciledModel(existing: Object, desired: Object, show: Show)
    requires HermesOf(existing, desired, show).Some? && HasMap(desired, "providers")
    requires HasMap(desired, "model") && HasMap(existing, "model")
    ensures var r := HermesOf(existing, desired, show).value;
      var wanted, theirs := desired["model"].entries, existing["model"].entries;
      && HasMap(r, "model")
      && RouteOf(PreserveLeaves(wanted, theirs, MODEL_LEAVES), wanted, desired["providers"].entries,
                 PyStr(show, GetOr(wanted, "provider", Str("anthropic")))) == Some(r["model"].entries)
  {
    var a := Assembled(existing, desired);
    AssembledSections(existing, desired);
    ProvidersAreOwned(existing, desired);
    LockedSatisfies(a, desired, show);
    assert Lookup(a, "model") == SectionOf(existing, desired, "model", MODEL_LEAVES);
  }

  /** A route whose provider is declared keeps every preserved leaf but its endpoint. */
  lemma DeclaredRouteKeeps(wanted: Object, theirs: Object, leaves: seq<string>, providers: Object, default: string,
      k: string)
    requires RouteOf(PreserveLeaves(wanted, theirs, leaves), wanted, providers, default).Some?
    requires "provider" in leaves && "provider" in theirs && Declared(providers, theirs["provider"])
    requires k in leaves && k in theirs && k !in {"base_url", "key_env", "api_mode"}
    ensures Lookup(RouteOf(PreserveLeaves(wanted, theirs, leaves), wanted, providers, default).value, k) ==
      Some(theirs[k])
  {
    var route := PreserveLeaves(wanted, theirs, leaves);
    assert route[k] == theirs[k] && route["provider"] == theirs["provider"];
  }

  /** The user's model, with a provider that is declared, survives leaf by leaf. */
  lemma ModelChoicesSurvive(existing: Object, desired: Object, show: Show, k: string)
    requires HermesOf(existing, desired, show).Some? && HasMap(desired, "providers")
    requires HasMap(desired, "model") && HasMap(existing, "model")
    requires "provider" in existing["model"].entries &&
      Declared(desired["providers"].entries, existing["model"].entries["provider"])
    requires k in {"default", "provider", "context_length", "persist_switch_by_default"}
    requires k in existing["model"].entries
    ensures var r := HermesOf(existing, desired, show).value;
      HasMap(r, "model") && Lookup(r["model"].entries, k) == Some(existing["model"].entries[k])
  {
    var wanted, theirs := desired["model"].entries, existing["model"].entries;
    ReconciledModel(existing, desired, show);
    assert k in MODEL_LEAVES && "provider" in MODEL_LEAVES;
    DeclaredRouteKeeps(wanted, theirs, MODEL_LEAVES, desired["providers"].entries,
                       PyStr(show, GetOr(wanted, "provider", Str("anthropic"))), k);
  }

  lemma ForeignRouteFallsBack(wanted: Object, theirs: Object, leaves: seq<string>, providers: Object, default: string,
      k: string)
    requires RouteOf(PreserveLeaves(wanted, theirs, leaves), wanted, providers, default).Some?
    requires "provider" in leaves && "provider" in theirs && !Declared(providers, theirs["provider"])
    requires k in leaves && k in theirs && k !in {"base_url", "key_env", "api_mode"}
    ensures var y := RouteOf(PreserveLeaves(wanted, theirs, leaves), wanted, providers, default).value;
      && Lookup(y, "provider") == Some(ProviderName(wanted, default))
      && Lookup(y, k) ==
           if k == "provider" then Some(ProviderName(wanted, default))
           else if k in {"default", "model"} && k in wanted then Some(wanted[k])
           else Some(theirs[k])
  {
    var route := PreserveLeaves(wanted, theirs, leaves);
    assert route[k] == theirs[k] && route["provider"] == theirs["provider"];
    RouteFallsBackAsAWhole(route, wanted, providers, default);
    RouteNamesItsProvider(route, wanted, providers, default);
    var y := RouteOf(route, wanted, providers, default).value;
    assert SameAt(y, route, k) || k in LOCKED || k in {"default", "model"};
  }

  /**
   A user's model whose provider is not declared falls back as a whole: the reconciled model has the
   desired provider, and the desired default model if there is one, but keeps the user's other leaves.
   */
  lemma ForeignModelFallsBack(existing: Object, desired: Object, show: Show, k: string)
    requires HermesOf(existing, desired, show).Some? && HasMap(desired, "providers")
    requires HasMap(desired, "model") && HasMap(existing, "model") && "provider" in existing["model"].entries
    requires !Declared(desired["providers"].entries, existing["model"].entries["provider"])
    requires k in {"default", "provider", "context_length", "persist_switch_by_default"}
    requires k in existing["model"].entries
    ensures var r := HermesOf(existing, desired, show).value;
      var wanted := desired["model"].entries;
      && HasMap(r, "model")
      && Lookup(r["model"].entries, "provider") ==
           Some(ProviderName(wanted, PyStr(show, GetOr(wanted, "provider", Str("anthropic")))))
      && Lookup(r["model"].entries, k) ==
           if k == "provider" then Lookup(r["model"].entries, "provider")
           else if k == "default" && k in wanted then Some(wanted[k])
           else Some(existing["model"].entries[k])
  {
    var wanted, theirs := desired["model"].entries, existing["model"].entries;
    ReconciledModel(existing, desired, show);
    ForeignRouteFallsBack(wanted, theirs, MODEL_LEAVES, desired["providers"].entries,
                          PyStr(show, GetOr(wanted, "provider", Str("anthropic"))), k);
  }

  predicate RoutesLocked(desired: Object, r: Object) {
    && HasMap(r, "providers")
    && var providers := r["providers"].entries;
       && (HasMap(r, "model") ==> EndpointLocked(r["model"].entries, providers))
       && DelegationLocked(desired, r)
       && forall n | n in Entries(desired, "auxiliary") && Entries(desired, "auxiliary")[n].Map? ::
            n in Entries(r, "auxiliary") && Entries(r, "auxiliary")[n].Map?
            && EndpointLocked(Entries(r, "auxiliary")[n].entries, providers)
  }

  predicate DelegationLocked(desired: Object, r: Object)
    requires HasMap(r, "providers")
  {
    HasMap(desired, "delegation") && HasMap(r, "delegation") ==>
      EndpointLocked(r["delegation"].entries, r["providers"].entries)
  }

  lemma ModelIsLocked(existing: Object, desired: Object, show: Show, a: Object, r: Object)
    requires HasSections(a, existing, desired) && SameAt(a, desired, "providers") && IsLocked(a, desired, show, r)
    requires LocksRoutes(a, desired) && DesiredRoutesDescribed(desired)
    ensures EndpointLocked(r["model"].entries, desired["providers"].entries)
  {
    RouteIsLocked(a["model"].entries, desired["model"].entries, a["providers"].entries,
                  PyStr(show, GetOr(desired["model"].entries, "provider", Str("anthropic"))));
  }

  lemma DelegationIsLocked(existing: Object, desired: Object, default: string, a: Object, r: Object)
    requires HasSections(a, existing, desired) && SameAt(a, desired, "providers") && SameAt(r, desired, "providers")
    requires DesiredRoutesDescribed(desired) && IsLockedDelegation(a, desired, default, r)
    ensures DelegationLocked(desired, r)
  {
    if HasMap(desired, "delegation") && HasMap(a, "delegation") {
      assert Lookup(a, "delegation") == SectionOf(existing, desired, "delegation", ROUTE_LEAVES);
      assert "provider" in a["delegation"].entries;
      RouteIsLocked(a["delegation"].entries, desired["delegation"].entries, a["providers"].entries, default);
    }
  }

  lemma AuxiliaryIsLocked(existing: Object, desired: Object, default: string, a: Object, r: Object, n: string)
    requires HasSections(a, existing, desired) && SameAt(a, desired, "providers")
    requires DesiredRoutesDescribed(desired) && IsLockedAuxiliary(a, desired, default, r)
    requires n in Entries(desired, "auxiliary") && Entries(desired, "auxiliary")[n].Map?
    ensures n in Entries(r, "auxiliary") && Entries(r, "auxiliary")[n].Map?
    ensures EndpointLocked(Entries(r, "auxiliary")[n].entries, desired["providers"].entries)
  {
    var wanted := Entries(desired, "auxiliary")[n];
    assert Lookup(a, "auxiliary") == AuxiliarySection(existing, desired);
    var route := a["auxiliary"].entries[n];
    assert "provider" in route.entries;
    assert LockedRoute(route, GetOr(Entries(desired, "auxiliary"), n, Map(map[])), a["providers"].entries, default)
           == Some(r["auxiliary"].entries[n]);
    RouteIsLocked(route.entries, wanted.entries, a["providers"].entries, default);
  }

  lemma LockingIsOn(existing: Object, desired: Object, show: Show)
    requires HermesOf(existing, desired, show).Some? && DesiredRoutesDescribed(desired) && ModelLocks(existing)
    ensures var a, r := Assembled(existing, desired), HermesOf(existing, desired, show).value;
      && LocksRoutes(a, desired) && HasSections(a, existing, desired) && IsLocked(a, desired, show, r)
      && SameAt(a, desired, "providers") && SameAt(r, desired, "providers")
  {
    var a := Assembled(existing, desired);
    AssembledSections(existing, desired);
    ProvidersAreOwned(existing, desired);
    LockedSatisfies(a, desired, show);
    assert Lookup(a, "model") == SectionOf(existing, desired, "model", MODEL_LEAVES);
  }

  /* When the reconciler runs through */

  /** The provider that the route names, if it names one, can be looked up: it is no list and no mapping. */
  predicate ProviderHashable(route: Object) {
    "provider" in route ==> !route["provider"].List? && !route["provider"].Map?
  }

  /** An auxiliary route of this name takes leaves of the existing one, or is the existing one. */
  predicate TakesAuxiliary(desired: Object, name: string) {
    HasMap(desired, "auxiliary") ==> HasMap(desired["auxiliary"].entries, name)
  }

  /** The providers that locking looks up, so far as delegation and auxiliary routes come from the user. */
  predicate SectionsHashable(desired: Object, delegation: Object, auxiliary: Object) {
    && (HasMap(desired, "delegation") ==> ProviderHashable(delegation))
    && forall n | n in auxiliary && auxiliary[n].Map? && TakesAuxiliary(desired, n) ::
         ProviderHashable(auxiliary[n].entries)
  }

  /** An existing model that is no mapping keeps all routes from being locked. */
  predicate ModelLocks(existing: Object) {
    "model" in existing ==> existing["model"].Map?
  }

  /** No provider that is looked up is a list or a mapping. */
  predicate ProvidersHashable(existing: Object, desired: Object) {
    && ProviderHashable(Entries(existing, "model"))
    && SectionsHashable(desired, Entries(existing, "delegation"), Entries(existing, "auxiliary"))
  }

  lemma RouteRuns(route: Object, desired: Object, providers: Object, default: string)
    requires ProviderHashable(desired)
    ensures RouteOf(route, desired, providers, default).Some? <==> ProviderHashable(route)
  {
  }

  lemma PreservedRuns(desired: Object, existing: Object, leaves: seq<string>)
    requires "provider" in leaves && ProviderHashable(desired)
    ensures ProviderHashable(PreserveLeaves(desired, existing, leaves)) <==> ProviderHashable(existing)
  {
  }

  lemma SectionRuns(a: Object, existing: Object, desired: Object, key: string, leaves: seq<string>, providers: Object,
      default: string)
    requires Lookup(a, key) == SectionOf(existing, desired, key, leaves) && "provider" in leaves
    requires HasMap(desired, key) && ProviderHashable(desired[key].entries) && HasMap(a, key)
    ensures RouteOf(a[key].entries, desired[key].entries, providers, default).Some? <==>
      ProviderHashable(Entries(existing, key))
  {
    PreservedRuns(desired[key].entries, Entries(existing, key), leaves);
    RouteRuns(a[key].entries, desired[key].entries, providers, default);
  }

  lemma ModelRuns(existing: Object, desired: Object, show: Show, a: Object)
    requires HasSections(a, existing, desired) && LocksRoutes(a, desired) && ModelLocks(existing)
    requires ProviderHashable(desired["model"].entries)
    ensures LockModel(a, desired, show).Some? <==> ProviderHashable(Entries(existing, "model"))
  {
    assert Lookup(a, "model") == SectionOf(existing, desired, "model", MODEL_LEAVES);
    SectionRuns(a, existing, desired, "model", MODEL_LEAVES, a["providers"].entries,
                PyStr(show, GetOr(desired["model"].entries, "provider", Str("anthropic"))));
  }

  lemma DelegationRuns(existing: Object, desired: Object, default: string, a: Object, m: Object)
    requires HasSections(a, existing, desired) && SameAt(m, a, "delegation") && HasMap(m, "providers")
    requires HasMap(desired, "delegation") ==> ProviderHashable(desired["delegation"].entries)
    ensures LockDelegation(m, desired, default).Some? <==>
      (HasMap(desired, "delegation") ==> ProviderHashable(Entries(existing, "delegation")))
  {
    assert Lookup(a, "delegation") == SectionOf(existing, desired, "delegation", ROUTE_LEAVES);
    if HasMap(a, "delegation") && HasMap(desired, "delegation") {
      SectionRuns(a, existing, desired, "delegation", ROUTE_LEAVES, m["providers"].entries, default);
    }
  }

  /** One auxiliary route, whether it is rebuilt from the desired one or merely inherited. */
  lemma AuxiliaryRouteRuns(existing: Object, desired: Object, route: Tree, n: string, providers: Object,
      default: string)
    requires n in Entries(desired, "auxiliary") && Entries(desired, "auxiliary")[n].Map? ==>
      ProviderHashable(Entries(desired, "auxiliary")[n].entries)
    requires if HasMap(desired, "auxiliary")
      then n in desired["auxiliary"].entries
        && route == AuxiliaryRoute(existing, n, desired["auxiliary"].entries[n])
      else n in existing && route == existing[n]
    ensures LockedRoute(route, GetOr(Entries(desired, "auxiliary"), n, Map(map[])), providers, default).Some? <==>
      (HasMap(existing, n) && TakesAuxiliary(desired, n) ==> ProviderHashable(existing[n].entries))
  {
    var wanted := GetOr(Entries(desired, "auxiliary"), n, Map(map[]));
    if route.Map? && wanted.Map? {
      RouteRuns(route.entries, wanted.entries, providers, default);
      if HasMap(desired, "auxiliary") {
        PreservedRuns(wanted.entries, Entries(existing, n), ROUTE_LEAVES);
      }
    }
  }

  lemma AuxiliaryRuns(existing: Object, desired: Object, default: string, a: Object, m: Object)
    requires HasSections(a, existing, desired) && SameAt(m, a, "auxiliary") && HasMap(m, "providers")
    requires forall n | n in Entries(desired, "auxiliary") && Entries(desired, "auxiliary")[n].Map? ::
      ProviderHashable(Entries(desired, "auxiliary")[n].entries)
    ensures LockAuxiliary(m, desired, default).Some? <==>
      forall n | n in Entries(existing, "auxiliary") && Entries(existing, "auxiliary")[n].Map?
                 && TakesAuxiliary(desired, n) ::
        ProviderHashable(Entries(existing, "auxiliary")[n].entries)
  {
    assert Lookup(a, "auxiliary") == AuxiliaryOf(existing, desired);
    var theirs := Entries(existing, "auxiliary");
    if HasMap(m, "auxiliary") {
      var routes := m["auxiliary"].entries;
      forall n | n in routes
        ensures LockedRoute(routes[n], GetOr(Entries(desired, "auxiliary"), n, Map(map[])), m["providers"].entries,
                            default).Some? <==>
          (HasMap(theirs, n) && TakesAuxiliary(desired, n) ==> ProviderHashable(theirs[n].entries))
      {
        AuxiliaryRouteRuns(theirs, desired, routes[n], n, m["providers"].entries, default);
      }
      assert forall n | n in theirs && theirs[n].Map? && TakesAuxiliary(desired, n) :: n in routes;
    }
  }

  /** Desired routes that name declared providers can always be looked up themselves. */
  lemma DesiredAreHashable(desired: Object)
    requires DesiredRoutesDescribed(desired)
    ensures ProviderHashable(desired["model"].entries)
    ensures HasMap(desired, "delegation") ==> ProviderHashable(desired["delegation"].entries)
    ensures forall n | n in Entries(desired, "auxiliary") && Entries(desired, "auxiliary")[n].Map? ::
      ProviderHashable(Entries(desired, "auxiliary")[n].entries)
  {
    var providers := desired["providers"].entries;
    forall n | n in Entries(desired, "auxiliary") && Entries(desired, "auxiliary")[n].Map?
      ensures ProviderHashable(Entries(desired, "auxiliary")[n].entries)
    {
      assert Names(providers, Entries(desired, "auxiliary")[n].entries);
    }
  }

  /** Locking runs through exactly when each of its three parts does. */
  lemma LockingRuns(existing: Object, desired: Object, show: Show, a: Object)
    requires HasSections(a, existing, desired) && LocksRoutes(a, desired) && ModelLocks(existing)
    requires DesiredRoutesDescribed(desired)
    ensures Locked(a, desired, show).Some? <==> ProvidersHashable(existing, desired)
  {
    DesiredAreHashable(desired);
    ModelRuns(existing, desired, show, a);
    if LockModel(a, desired, show).Some? {
      var m := LockModel(a, desired, show).value;
      var default := DefaultProvider(show, m["model"].entries, desired["model"].entries);
      DelegationRuns(existing, desired, default, a, m);
      if LockDelegation(m, desired, default).Some? {
        AuxiliaryRuns(existing, desired, default, a, LockDelegation(m, desired, default).value);
      }
    }
  }

  /**
   A Hermes configuration is written exactly when the existing model is no mapping, or no provider that
   is looked up is a list or a mapping; otherwise a TypeError ends the program.
   */
  lemma HermesRunsExactly(existing: Object, desired: Object, show: Show)
    requires DesiredRoutesDescribed(desired)
    ensures HermesOf(existing, desired, show).Some? <==> !ModelLocks(existing) || ProvidersHashable(existing, desired)
  {
    var a := Assembled(existing, desired);
    AssembledSections(existing, desired);
    ProvidersAreOwned(existing, desired);
    assert Lookup(a, "model") == SectionOf(existing, desired, "model", MODEL_LEAVES);
    if ModelLocks(existing) {
      LockingRuns(existing, desired, show, a);
    }
  }

  /** A provider given as a list stops the reconciler, whatever is desired. */
  lemma ListProviderStops(desired: Object, show: Show)
    requires DesiredRoutesDescribed(desired)
    ensures HermesOf(map["model" := Map(map["provider" := List([])])], desired, show) == None
  {
    HermesRunsExactly(map["model" := Map(map["provider" := List([])])], desired, show);
  }

  /* Every route is locked */

  /**
   With described desired routes, an existing model that is a mapping or absent, and no list or mapping in
   place of a provider, the reconciler runs through and every reconciled route is locked.
   */
  lemma EndpointsAreLocked(existing: Object, desired: Object, show: Show)
    requires DesiredRoutesDescribed(desired) && ModelLocks(existing) && ProvidersHashable(existing, desired)
    ensures HermesOf(existing, desired, show).Some? && RoutesLocked(desired, HermesOf(existing, desired, show).value)
  {
    HermesRunsExactly(existing, desired, show);
    var a, r := Assembled(existing, desired), HermesOf(existing, desired, show).value;
    LockingIsOn(existing, desired, show);
    var default := DefaultProvider(show, r["model"].entries, desired["model"].entries);
    ModelIsLocked(existing, desired, show, a, r);
    DelegationIsLocked(existing, desired, default, a, r);
    forall n | n in Entries(desired, "auxiliary") && Entries(desired, "auxiliary")[n].Map?
      ensures n in Entries(r, "auxiliary") && Entries(r, "auxiliary")[n].Map?
      ensures EndpointLocked(Entries(r, "auxiliary")[n].entries, r["providers"].entries)
    {
      AuxiliaryIsLocked(existing, desired, default, a, r, n);
    }
  }

  /** The existing configuration with the given delegation and auxiliary sections in place of its own. */
  function WithSections(existing: Object, delegation: Option<Tree>, auxiliary: Option<Tree>): Object {
    Put(Put(existing - {"delegation", "auxiliary"}, "delegation", delegation), "auxiliary", auxiliary)
  }

  function TreeEntries(section: Option<Tree>): Object {
    if section.Some? && section.value.Map? then section.value.entries else map[]
  }

  predicate UserHashable(desired: Object, delegation: Option<Tree>, auxiliary: Option<Tree>) {
    SectionsHashable(desired, TreeEntries(delegation), TreeEntries(auxiliary))
  }

  /** The desired configuration has a route besides the model. */
  predicate DesiresRoutes(desired: Object) {
    || HasMap(desired, "delegation")
    || exists n | n in Entries(desired, "auxiliary") :: Entries(desired, "auxiliary")[n].Map?
  }

  /** The reconciler runs through and locks every route, with these delegation and auxiliary sections of the user. */
  predicate LockedWith(existing: Object, desired: Object, show: Show, delegation: Option<Tree>,
      auxiliary: Option<Tree>) {
    var r := HermesOf(WithSections(existing, delegation, auxiliary), desired, show);
    r.Some? && RoutesLocked(desired, r.value)
  }

  const STRANGER := Map(map["provider" := Null])

  lemma ScalarModelLocksNothing(existing: Object, desired: Object, show: Show)
    requires !ModelLocks(existing) && HasMap(desired, "model") && HasMap(desired, "providers")
    ensures HermesOf(existing, desired, show) == Some(Assembled(existing, desired))
    ensures var r := Assembled(existing, desired);
      HasMap(r, "providers") && !HasMap(r, "model") && HasSections(r, existing, desired)
  {
    var a := Assembled(existing, desired);
    AssembledSections(existing, desired);
    ProvidersAreOwned(existing, desired);
    assert Lookup(a, "model") == SectionOf(existing, desired, "model", MODEL_LEAVES);
  }

  /** An existing model that is no mapping switches the locking off, so an undeclared provider stays. */
  lemma ScalarModelKeepsAStranger(existing: Object, desired: Object, show: Show)
    requires DesiredRoutesDescribed(desired) && !ModelLocks(existing)
    ensures HasMap(desired, "delegation") ==> !LockedWith(existing, desired, show, Some(STRANGER), None)
    ensures forall n | n in Entries(desired, "auxiliary") && Entries(desired, "auxiliary")[n].Map? ::
      !LockedWith(existing, desired, show, None, Some(Map(map[n := STRANGER])))
  {
    if HasMap(desired, "delegation") {
      DelegationKeepsAStranger(existing, desired, show);
    }
    forall n | n in Entries(desired, "auxiliary") && Entries(desired, "auxiliary")[n].Map?
      ensures !LockedWith(existing, desired, show, None, Some(Map(map[n := STRANGER])))
    {
      AuxiliaryKeepsAStranger(existing, desired, show, n);
    }
  }

  lemma DelegationKeepsAStranger(existing: Object, desired: Object, show: Show)
    requires DesiredRoutesDescribed(desired) && !ModelLocks(existing)
    requires HasMap(desired, "delegation")
    ensures !LockedWith(existing, desired, show, Some(STRANGER), None)
  {
    var existing' := WithSections(existing, Some(STRANGER), None);
    var a := Assembled(existing', desired);
    ScalarModelLocksNothing(existing', desired, show);
    assert Lookup(a, "delegation") == SectionOf(existing', desired, "delegation", ROUTE_LEAVES);
    assert a["delegation"].entries["provider"] == Null;
  }

  lemma AuxiliaryKeepsAStranger(existing: Object, desired: Object, show: Show, n: string)
    requires DesiredRoutesDescribed(desired) && !ModelLocks(existing)
    requires n in Entries(desired, "auxiliary") && Entries(desired, "auxiliary")[n].Map?
    ensures !LockedWith(existing, desired, show, None, Some(Map(map[n := STRANGER])))
  {
    var existing' := WithSections(existing, None, Some(Map(map[n := STRANGER])));
    var a := Assembled(existing', desired);
    ScalarModelLocksNothing(existing', desired, show);
    assert Lookup(a, "auxiliary") == AuxiliarySection(existing', desired);
    assert Entries(existing', "auxiliary") == map[n := STRANGER];
    assert a["auxiliary"].entries[n] == AuxiliaryRoute(map[n := STRANGER], n, desired["auxiliary"].entries[n]);
    assert Entries(a, "auxiliary")[n].entries["provider"] == Null;
  }

  /**
   Every reconciled route is locked, whatever delegation and auxiliary routes the user has set up whose providers
   can be looked up: exactly when the existing model is absent or a mapping whose own provider can be looked
   up, or is no mapping and no route besides the model is desired.
   */
  lemma EndpointsLockedExactly(existing: Object, desired: Object, show: Show)
    requires DesiredRoutesDescribed(desired)
    ensures (forall delegation, auxiliary | UserHashable(desired, delegation, auxiliary) ::
               LockedWith(existing, desired, show, delegation, auxiliary))
            <==> if ModelLocks(existing) then ProviderHashable(Entries(existing, "model")) else !DesiresRoutes(desired)
  {
    if ModelLocks(existing) {
      forall delegation, auxiliary | UserHashable(desired, delegation, auxiliary)
        ensures LockedWith(existing, desired, show, delegation, auxiliary) <==>
          ProviderHashable(Entries(existing, "model"))
      {
        LockedOnceHashable(existing, desired, show, delegation, auxiliary);
      }
      assert UserHashable(desired, None, None);
    } else {
      ScalarModelKeepsAStranger(existing, desired, show);
      assert UserHashable(desired, Some(STRANGER), None);
      assert forall n :: UserHashable(desired, None, Some(Map(map[n := STRANGER])));
      forall delegation, auxiliary | !DesiresRoutes(desired)
        ensures LockedWith(existing, desired, show, delegation, auxiliary)
      {
        ScalarModelLocksNothing(WithSections(existing, delegation, auxiliary), desired, show);
      }
    }
  }

  lemma LockedOnceHashable(existing: Object, desired: Object, show: Show, delegation: Option<Tree>,
      auxiliary: Option<Tree>)
    requires DesiredRoutesDescribed(desired) && ModelLocks(existing) && UserHashable(desired, delegation, auxiliary)
    ensures LockedWith(existing, desired, show, delegation, auxiliary) <==>
      ProviderHashable(Entries(existing, "model"))
  {
    var existing' := WithSections(existing, delegation, auxiliary);
    assert Entries(existing', "delegation") == TreeEntries(delegation);
    assert Entries(existing', "auxiliary") == TreeEntries(auxiliary);
    HermesRunsExactly(existing', desired, show);
    if ProviderHashable(Entries(existing, "model")) {
      EndpointsAreLocked(existing', desired, show);
    }
  }

  /** The reconciler runs through, and the delegation of its result, if that is a mapping, is locked. */
  predicate DelegationLockedWith(existing: Object, desired: Object, show: Show, delegation: Option<Tree>,
      auxiliary: Option<Tree>) {
    var r := HermesOf(WithSections(existing, delegation, auxiliary), desired, show);
    r.Some? && HasMap(r.value, "providers")
    && (HasMap(r.value, "delegation") ==>
          EndpointLocked(r.value["delegation"].entries, r.value["providers"].entries))
  }

  /**
   A user's delegation is locked, whatever it is, exactly when the locking is on and a delegation is desired:
   where none is, the user's own is kept with whatever provider it names.
   */
  lemma DelegationLockedExactly(existing: Object, desired: Object, show: Show)
    requires DesiredRoutesDescribed(desired)
    ensures (forall delegation, auxiliary | UserHashable(desired, delegation, auxiliary) ::
               DelegationLockedWith(existing, desired, show, delegation, auxiliary))
            <==> ModelLocks(existing) && ProviderHashable(Entries(existing, "model")) && HasMap(desired, "delegation")
  {
    if ModelLocks(existing) && ProviderHashable(Entries(existing, "model")) && HasMap(desired, "delegation") {
      forall delegation, auxiliary | UserHashable(desired, delegation, auxiliary)
        ensures DelegationLockedWith(existing, desired, show, delegation, auxiliary)
      {
        LockedOnceHashable(existing, desired, show, delegation, auxiliary);
      }
    } else {
      assert UserHashable(desired, Some(STRANGER), None);
      StrangerIsKept(existing, desired, show);
    }
  }

  lemma StrangerIsKept(existing: Object, desired: Object, show: Show)
    requires DesiredRoutesDescribed(desired)
    requires !(ModelLocks(existing) && ProviderHashable(Entries(existing, "model")) && HasMap(desired, "delegation"))
    ensures !DelegationLockedWith(existing, desired, show, Some(STRANGER), None)
  {
    var existing' := WithSections(existing, Some(STRANGER), None);
    var a := Assembled(existing', desired);
    HermesRunsExactly(existing', desired, show);
    AssembledSections(existing', desired);
    assert Lookup(a, "delegation") == SectionOf(existing', desired, "delegation", ROUTE_LEAVES);
    assert a["delegation"].entries["provider"] == Null;
    if !ModelLocks(existing) {
      ScalarModelLocksNothing(existing', desired, show);
    } else if HermesOf(existing', desired, show).Some? {
      LockingIsOn(existing', desired, show);
    }
  }
}
