/** The reconciler of the Hermes configuration: owned sections, preserved leaves, and locked model routes. */
module Hermes {
  import opened Prelude
  import opened ConfigTree
  import opened Reconcile
  import opened Harnesses

  const HERMES_OWNED: seq<Path> := [
    ["providers"], ["model_catalog"], ["model_aliases"], ["moa"], ["fallback_providers"], ["hooks"],
    ["platform_toolsets"], ["platforms", "webhook"], ["kanban"], ["mcp_servers"], ["toolsets"],
    ["command_allowlist"], ["approvals", "mode"], ["hooks_auto_accept"], ["custom_providers"], ["plugins"], ["slack"]
  ]

  const AGENT_LEAVES := ["reasoning_effort", "service_tier", "system_prompt"]
  const MODEL_LEAVES := ["default", "provider", "context_length", "persist_switch_by_default"]
  const ROUTE_LEAVES := ["model", "provider", "context_length"]

  /** Python's `str` on values that are not strings. */
  type Show = Tree -> string

  function PyStr(show: Show, t: Tree): string {
    if t.Str? then t.text else show(t)
  }

  /** `desired` with the listed leaves taken from `existing` where it has them. */
  function PreserveLeaves(desired: Object, existing: Object, leaves: seq<string>): Object {
    desired + map k | k in existing && k in leaves :: existing[k]
  }

  /* Routes */

  predicate Declared(providers: Object, name: Tree) {
    name.Str? && name.text in providers
  }

  /** The provider a route names, or defaults to. */
  function ProviderName(route: Object, default: string): Tree {
    GetOr(route, "provider", Str(default))
  }

  /** The route falls back to the desired provider, together with the desired models. */
  function FallBack(route: Object, desired: Object, default: string): Object {
    var r0 := route["provider" := ProviderName(desired, default)];
    var r1 := if "default" in desired then r0["default" := desired["default"]] else r0;
    if "model" in desired then r1["model" := desired["model"]] else r1
  }

  function WithEndpoint(route: Object, name: Tree, provider: Object): Object {
    route["provider" := name]
         ["base_url" := GetOr(provider, "api", Null)]
         ["key_env" := GetOr(provider, "key_env", Null)]
         ["api_mode" := GetOr(provider, "transport", Null)]
  }

  function LockEndpoint(route: Object, name: Tree, providers: Object): Object {
    if Declared(providers, name) && providers[name.text].Map? then
      WithEndpoint(route, name, providers[name.text].entries)
    else route
  }

  /** What `reconcile_route` makes of a route; None when it raises TypeError. */
  function RouteOf(route: Object, desired: Object, providers: Object, default: string): Option<Object> {
    var name := ProviderName(route, default);
    if !Hashable(name) then None
    else if Declared(providers, name) then Some(LockEndpoint(route, name, providers))
    else
      var name' := ProviderName(desired, default);
      if !Hashable(name') then None
      else Some(LockEndpoint(FallBack(route, desired, default), name', providers))
  }

  class Route {
    var fields: Object

    constructor (fields: Object)
      ensures this.fields == fields
    {
      this.fields := fields;
    }

    /** Rewrites the route in place; the result tells whether it ran through without a TypeError. */
    method Reconcile(desired: Object, providers: Object, default: string) returns (ok: bool)
      modifies this
      ensures RouteOf(old(fields), desired, providers, default) == if ok then Some(fields) else None
    {
      var name := GetOr(fields, "provider", Str(default));
      if !Hashable(name) {
        return false;
      }
      if !Declared(providers, name) {
        fields := fields["provider" := GetOr(desired, "provider", Str(default))];
        if "default" in desired {
          fields := fields["default" := desired["default"]];
        }
        if "model" in desired {
          fields := fields["model" := desired["model"]];
        }
        name := fields["provider"];
        assert name == ProviderName(desired, default);
        if !Hashable(name) {
          return false;
        }
      }
      if !Declared(providers, name) || !providers[name.text].Map? {
        return true;
      }
      var provider := providers[name.text].entries;
      fields := fields["provider" := name];
      fields := fields["base_url" := GetOr(provider, "api", Null)];
      fields := fields["key_env" := GetOr(provider, "key_env", Null)];
      fields := fields["api_mode" := GetOr(provider, "transport", Null)];
      return true;
    }
  }

  /* Sections */

  function Put(m: Object, key: string, value: Option<Tree>): Object {
    if value.Some? then m[key := value.value] else m
  }

  function AgentSection(existing: Object, desired: Object): Option<Tree> {
    if HasMap(desired, "agent") then
      Some(Map(PreserveLeaves(desired["agent"].entries, Entries(existing, "agent"), AGENT_LEAVES)))
    else None
  }

  /** The model and delegation sections, where both sides hold mappings. */
  function RouteSection(existing: Object, desired: Object, key: string, leaves: seq<string>): Option<Tree> {
    if HasMap(desired, key) && HasMap(existing, key) then
      Some(Map(PreserveLeaves(desired[key].entries, existing[key].entries, leaves)))
    else None
  }

  function AuxiliaryRoute(existing: Object, name: string, desiredRoute: Tree): Tree {
    if !desiredRoute.Map? then desiredRoute
    else Map(PreserveLeaves(desiredRoute.entries, Entries(existing, name), ROUTE_LEAVES))
  }

  function AuxiliarySection(existing: Object, desired: Object): Option<Tree> {
    if HasMap(desired, "auxiliary") then
      var routes := desired["auxiliary"].entries;
      Some(Map(map n | n in routes :: AuxiliaryRoute(Entries(existing, "auxiliary"), n, routes[n])))
    else None
  }

  /** Everything before the routes are locked. */
  function Assembled(existing: Object, desired: Object): Object
  {
    HermesPathsNonEmpty();
    var r0 := Reconciled(existing, desired, HERMES_OWNED);
    var r1 := Put(r0, "agent", AgentSection(existing, desired));
    var r2 := Put(r1, "model", RouteSection(existing, desired, "model", MODEL_LEAVES));
    var r3 := Put(r2, "delegation", RouteSection(existing, desired, "delegation", ROUTE_LEAVES));
    Put(r3, "auxiliary", AuxiliarySection(existing, desired))
  }

  /* Locking the routes */

  function LockedRoute(route: Tree, desired: Tree, providers: Object, default: string): Option<Tree> {
    if !route.Map? || !desired.Map? then Some(route) else
    match RouteOf(route.entries, desired.entries, providers, default)
    case None => None
    case Some(fields) => Some(Map(fields))
  }

  /** Every auxiliary route is locked; None when one of them raises TypeError. */
  function LockedRoutes(routes: Object, desired: Object, providers: Object, default: string): Option<Object> {
    if forall n | n in routes :: LockedRoute(routes[n], GetOr(desired, n, Map(map[])), providers, default).Some? then
      Some(map n | n in routes :: LockedRoute(routes[n], GetOr(desired, n, Map(map[])), providers, default).value)
    else None
  }

  /** The provider of the locked model, which the other routes default to. */
  function DefaultProvider(show: Show, model: Object, desiredModel: Object): string {
    PyStr(show, GetOr(model, "provider", GetOr(desiredModel, "provider", Str("anthropic"))))
  }

  predicate LocksRoutes(m: Object, desired: Object) {
    HasMap(m, "providers") && HasMap(desired, "model") && HasMap(m, "model")
  }

  function LockModel(m: Object, desired: Object, show: Show): Option<Object>
    requires LocksRoutes(m, desired)
  {
    match RouteOf(m["model"].entries, desired["model"].entries, m["providers"].entries,
                  PyStr(show, GetOr(desired["model"].entries, "provider", Str("anthropic"))))
    case None => None
    case Some(fields) => Some(m["model" := Map(fields)])
  }

  function LockDelegation(m: Object, desired: Object, default: string): Option<Object>
    requires HasMap(m, "providers")
  {
    if !HasMap(m, "delegation") || !HasMap(desired, "delegation") then Some(m) else
    match RouteOf(m["delegation"].entries, desired["delegation"].entries, m["providers"].entries, default)
    case None => None
    case Some(fields) => Some(m["delegation" := Map(fields)])
  }

  function LockAuxiliary(m: Object, desired: Object, default: string): Option<Object>
    requires HasMap(m, "providers")
  {
    if !HasMap(m, "auxiliary") then Some(m) else
    match LockedRoutes(m["auxiliary"].entries, Entries(desired, "auxiliary"), m["providers"].entries, default)
    case None => None
    case Some(routes) => Some(m["auxiliary" := Map(routes)])
  }

  function Locked(m: Object, desired: Object, show: Show): Option<Object> {
    if !LocksRoutes(m, desired) then Some(m) else
    match LockModel(m, desired, show)
    case None => None
    case Some(m1) =>
      var default := DefaultProvider(show, m1["model"].entries, desired["model"].entries);
      match LockDelegation(m1, desired, default)
      case None => None
      case Some(m2) => LockAuxiliary(m2, desired, default)
  }

  /** The reconciled Hermes configuration; None when a route names its provider by a list or a mapping. */
  function HermesOf(existing: Object, desired: Object, show: Show): Option<Object> {
    Locked(Assembled(existing, desired), desired, show)
  }

  lemma HermesPathsNonEmpty()
    ensures Separate(HERMES_OWNED)
  {
    DistinctHeadsSeparate(HERMES_OWNED);
  }

  method LockRoutes(routes: Object, desired: Object, providers: Object, default: string)
      returns (ok: bool, locked: Object)
    ensures LockedRoutes(routes, desired, providers, default) == if ok then Some(locked) else None
  {
    locked := map[];
    var unvisited := routes.Keys;
    while unvisited != {}
      invariant unvisited <= routes.Keys
      invariant locked.Keys == routes.Keys - unvisited
      invariant forall n | n in locked ::
        LockedRoute(routes[n], GetOr(desired, n, Map(map[])), providers, default) == Some(locked[n])
      decreases |unvisited|
    {
      var name :| name in unvisited;
      unvisited := unvisited - {name};
      var desiredRoute := GetOr(desired, name, Map(map[]));
      if routes[name].Map? && desiredRoute.Map? {
        var route := new Route(routes[name].entries);
        var fine := route.Reconcile(desiredRoute.entries, providers, default);
        if !fine {
          return false, map[];
        }
        locked := locked[name := Map(route.fields)];
      } else {
        locked := locked[name := routes[name]];
      }
    }
    assert locked == map n | n in routes ::
      LockedRoute(routes[n], GetOr(desired, n, Map(map[])), providers, default).value;
    return true, locked;
  }

  /** Rebuilds the agent, model, delegation and auxiliary sections from their preserved leaves. */
  method AssembleSections(result: Document, existing: Object, desired: Object)
    requires Separate(HERMES_OWNED) && result.root == Reconciled(existing, desired, HERMES_OWNED)
    modifies result
    ensures result.root == Assembled(existing, desired)
  {
    if HasMap(desired, "agent") {
      result.root := result.root["agent" :=
        Map(PreserveLeaves(desired["agent"].entries, Entries(existing, "agent"), AGENT_LEAVES))];
    }
    if HasMap(desired, "model") && HasMap(existing, "model") {
      result.root := result.root["model" :=
        Map(PreserveLeaves(desired["model"].entries, existing["model"].entries, MODEL_LEAVES))];
    }
    if HasMap(desired, "delegation") && HasMap(existing, "delegation") {
      result.root := result.root["delegation" :=
        Map(PreserveLeaves(desired["delegation"].entries, existing["delegation"].entries, ROUTE_LEAVES))];
    }
    if HasMap(desired, "auxiliary") {
      var routes := AssembleAuxiliary(Entries(existing, "auxiliary"), desired["auxiliary"].entries);
      result.root := result.root["auxiliary" := Map(routes)];
    }
  }

  /** The result is null when a TypeError stops the program before anything is written. */
  method ReconcileHermes(existing: Object, desired: Object, show: Show) returns (result: Document?)
    ensures result != null ==> fresh(result) && HermesOf(existing, desired, show) == Some(result.root)
    ensures result == null ==> HermesOf(existing, desired, show) == None
  {
    HermesPathsNonEmpty();
    result := new Document(MergeObjects(desired, existing));
    result.ReplaceEach(desired, HERMES_OWNED);
    AssembleSections(result, existing, desired);
    var fine := LockDocument(result, desired, show);
    if !fine {
      return null;
    }
  }

  method AssembleAuxiliary(existing: Object, desired: Object) returns (routes: Object)
    ensures routes == map n | n in desired :: AuxiliaryRoute(existing, n, desired[n])
  {
    routes := map[];
    var unvisited := desired.Keys;
    while unvisited != {}
      invariant unvisited <= desired.Keys
      invariant routes == map n | n in desired && n !in unvisited :: AuxiliaryRoute(existing, n, desired[n])
      decreases |unvisited|
    {
      var name :| name in unvisited;
      unvisited := unvisited - {name};
      if !desired[name].Map? {
        routes := routes[name := desired[name]];
      } else {
        routes := routes[name := Map(PreserveLeaves(desired[name].entries, Entries(existing, name), ROUTE_LEAVES))];
      }
    }
  }

  method LockDelegationRoute(result: Document, desired: Object, default: string) returns (ok: bool)
    requires HasMap(result.root, "providers")
    modifies result
    ensures LockDelegation(old(result.root), desired, default) == if ok then Some(result.root) else None
  {
    if !HasMap(result.root, "delegation") || !HasMap(desired, "delegation") {
      return true;
    }
    var delegation := new Route(result.root["delegation"].entries);
    ok := delegation.Reconcile(desired["delegation"].entries, result.root["providers"].entries, default);
    if ok {
      result.root := result.root["delegation" := Map(delegation.fields)];
    }
  }

  method LockAuxiliaryRoutes(result: Document, desired: Object, default: string) returns (ok: bool)
    requires HasMap(result.root, "providers")
    modifies result
    ensures LockAuxiliary(old(result.root), desired, default) == if ok then Some(result.root) else None
  {
    if !HasMap(result.root, "auxiliary") {
      return true;
    }
    var locked;
    ok, locked := LockRoutes(result.root["auxiliary"].entries, Entries(desired, "auxiliary"),
                             result.root["providers"].entries, default);
    if ok {
      result.root := result.root["auxiliary" := Map(locked)];
    }
  }

  method LockDocument(result: Document, desired: Object, show: Show) returns (ok: bool)
    modifies result
    ensures Locked(old(result.root), desired, show) == if ok then Some(result.root) else None
  {
    if !LocksRoutes(result.root, desired) {
      return true;
    }
    var providers := result.root["providers"].entries;
    var wanted := desired["model"].entries;
    var model := new Route(result.root["model"].entries);
    ok := model.Reconcile(wanted, providers, PyStr(show, GetOr(wanted, "provider", Str("anthropic"))));
    if !ok {
      return;
    }
    result.root := result.root["model" := Map(model.fields)];
    var default := DefaultProvider(show, model.fields, wanted);
    ok := LockDelegationRoute(result, desired, default);
    if !ok {
      return;
    }
    ok := LockAuxiliaryRoutes(result, desired, default);
  }
}
