/** What the Hermes reconciler guarantees: idempotence, and routes locked to declared endpoints. */
module HermesLaws {
  import opened Prelude
  import opened ConfigTree
  import opened Reconcile
  import opened Harnesses
  import opened Hermes

  const SECTIONS := {"agent", "model", "delegation", "auxiliary"}
  const LOCKABLE := {"model", "delegation", "auxiliary"}

  predicate SameAt(a: Object, b: Object, k: string) {
    (k in a <==> k in b) && (k in a ==> a[k] == b[k])
  }

  /* Every pass works key by key */

  lemma {:induction false} ReplaceAllKeywise(a: Object, b: Object, desired: Object, paths: seq<Path>, k: string)
    requires (forall i | 0 <= i < |paths| :: paths[i] != []) && SameAt(a, b, k)
    ensures SameAt(ReplaceAll(a, desired, paths), ReplaceAll(b, desired, paths), k)
    decreases |paths|
  {
    if paths != [] {
      ReplaceAllKeywise(a, b, desired, paths[..|paths| - 1], k);
    }
  }

  lemma ReconciledKeywise(a: Object, b: Object, desired: Object, paths: seq<Path>, k: string)
    requires (forall i | 0 <= i < |paths| :: paths[i] != []) && SameAt(a, b, k)
    ensures SameAt(Reconciled(a, desired, paths), Reconciled(b, desired, paths), k)
  {
    ReplaceAllKeywise(MergeObjects(desired, a), MergeObjects(desired, b), desired, paths, k);
  }

  /** The sections are no owned paths, so the first pass merges them. */
  lemma SectionsAreMerged(existing: Object, desired: Object, k: string)
    requires k in SECTIONS
    ensures Separate(HERMES_OWNED)
    ensures SameAt(Reconciled(existing, desired, HERMES_OWNED), MergeObjects(desired, existing), k)
  {
    HermesPathsNonEmpty();
    forall i | 0 <= i < |HERMES_OWNED| ensures !Comparable(HERMES_OWNED[i], [k]) {
      assert HERMES_OWNED[i][0] != k;
      HeadsApart(HERMES_OWNED[i], [k]);
    }
    ReadsBeside(MergeObjects(desired, existing), desired, HERMES_OWNED, [k]);
    GetOne(Map(MergeObjects(desired, existing)), k);
    GetOne(Map(Reconciled(existing, desired, HERMES_OWNED)), k);
  }

  /** The result of locking, described key by key. */
  predicate IsLocked(m: Object, desired: Object, show: Show, r: Object) {
    && r.Keys == m.Keys
    && (forall k | k in m && k !in LOCKABLE :: r[k] == m[k])
    && if !LocksRoutes(m, desired) then r == m else
       && HasMap(r, "model")
       && RouteOf(m["model"].entries, desired["model"].entries, m["providers"].entries,
                  PyStr(show, GetOr(desired["model"].entries, "provider", Str("anthropic")))) ==
                    Some(r["model"].entries)
       && var default := DefaultProvider(show, r["model"].entries, desired["model"].entries);
          && IsLockedDelegation(m, desired, default, r)
          && IsLockedAuxiliary(m, desired, default, r)
  }

  predicate IsLockedDelegation(m: Object, desired: Object, default: string, r: Object)
    requires HasMap(m, "providers")
  {
    if HasMap(m, "delegation") && HasMap(desired, "delegation") then
      HasMap(r, "delegation") && RouteOf(m["delegation"].entries, desired["delegation"].entries,
        m["providers"].entries, default)
                                 == Some(r["delegation"].entries)
    else SameAt(m, r, "delegation")
  }

  predicate IsLockedAuxiliary(m: Object, desired: Object, default: string, r: Object)
    requires HasMap(m, "providers")
  {
    if HasMap(m, "auxiliary") then
      HasMap(r, "auxiliary") && LockedRoutes(m["auxiliary"].entries, Entries(desired, "auxiliary"),
        m["providers"].entries, default)
                                == Some(r["auxiliary"].entries)
    else SameAt(m, r, "auxiliary")
  }

  lemma LockedSatisfies(m: Object, desired: Object, show: Show)
    requires Locked(m, desired, show).Some?
    ensures IsLocked(m, desired, show, Locked(m, desired, show).value)
  {
  }

  lemma LockingSucceeds(b: Object, desired: Object, show: Show, r: Object)
    requires LocksRoutes(b, desired) && HasMap(r, "model")
    requires RouteOf(b["model"].entries, desired["model"].entries, b["providers"].entries,
                     PyStr(show, GetOr(desired["model"].entries, "provider", Str("anthropic")))) ==
                       Some(r["model"].entries)
    requires var default := DefaultProvider(show, r["model"].entries, desired["model"].entries);
      IsLockedDelegation(b, desired, default, r) && IsLockedAuxiliary(b, desired, default, r)
    ensures Locked(b, desired, show).Some?
  {
    var m1 := LockModel(b, desired, show).value;
    assert m1["model"] == Map(r["model"].entries);
    var default := DefaultProvider(show, r["model"].entries, desired["model"].entries);
    var m2 := LockDelegation(m1, desired, default).value;
    assert LockAuxiliary(m2, desired, default).Some?;
  }

  /** The description leaves no choice. */
  lemma IsLockedDetermines(m: Object, desired: Object, show: Show, r: Object, r': Object)
    requires IsLocked(m, desired, show, r) && IsLocked(m, desired, show, r')
    ensures r == r'
  {
    if LocksRoutes(m, desired) {
      assert r["model"] == r'["model"];
      forall k | k in m ensures r[k] == r'[k] {
        if k == "delegation" && HasMap(m, k) && HasMap(desired, k) {
          assert r[k] == Map(r[k].entries) && r'[k] == Map(r'[k].entries);
        } else if k == "auxiliary" && HasMap(m, k) {
          assert r[k] == Map(r[k].entries) && r'[k] == Map(r'[k].entries);
        }
      }
    }
  }

  lemma LockedIsUnique(m: Object, desired: Object, show: Show, r: Object)
    requires IsLocked(m, desired, show, r)
    ensures Locked(m, desired, show) == Some(r)
  {
    if LocksRoutes(m, desired) {
      LockingSucceeds(m, desired, show, r);
    }
    LockedSatisfies(m, desired, show);
    IsLockedDetermines(m, desired, show, r, Locked(m, desired, show).value);
  }

  /* Routes, locked again */

  lemma PreserveAgain(desired: Object, existing: Object, leaves: seq<string>)
    ensures PreserveLeaves(desired, PreserveLeaves(desired, existing, leaves), leaves) ==
      PreserveLeaves(desired, existing, leaves)
  {
  }

  lemma LockEndpointKeeps(route: Object, name: Tree, providers: Object)
    ensures var y := LockEndpoint(route, name, providers);
      && y.Keys <= route.Keys + {"provider", "base_url", "key_env", "api_mode"} && route.Keys <= y.Keys
      && (forall k | k in route && k !in {"provider", "base_url", "key_env", "api_mode"} :: y[k] == route[k])
  {
  }

  const ENDPOINT := {"base_url", "key_env", "api_mode"}

  predicate KeepsEndpoint(leaves: seq<string>) {
    "provider" in leaves && "base_url" !in leaves && "key_env" !in leaves && "api_mode" !in leaves
  }

  /** Outside its leaves a route differs from the desired one by its endpoint only. */
  lemma RouteOutsideLeaves(desired: Object, existing: Object, leaves: seq<string>, providers: Object, default: string,
      k: string)
    requires KeepsEndpoint(leaves) && k !in leaves && k !in ENDPOINT
    requires RouteOf(PreserveLeaves(desired, existing, leaves), desired, providers, default).Some?
    ensures SameAt(RouteOf(PreserveLeaves(desired, existing, leaves), desired, providers, default).value, desired, k)
  {
    var x := PreserveLeaves(desired, existing, leaves);
    LockEndpointKeeps(x, ProviderName(x, default), providers);
    LockEndpointKeeps(FallBack(x, desired, default), ProviderName(desired, default), providers);
  }

  /** Where a route got no endpoint, it has the desired one. */
  lemma RouteWithoutEndpoint(desired: Object, existing: Object, leaves: seq<string>, providers: Object,
      default: string, k: string)
    requires KeepsEndpoint(leaves) && k in ENDPOINT
    requires RouteOf(PreserveLeaves(desired, existing, leaves), desired, providers, default).Some?
    ensures var y := RouteOf(PreserveLeaves(desired, existing, leaves), desired, providers, default).value;
      var name := ProviderName(y, default);
      !(Declared(providers, name) && providers[name.text].Map?) ==> SameAt(y, desired, k)
  {
  }

  lemma PreserveOfRoute(desired: Object, y: Object, leaves: seq<string>, k: string)
    ensures SameAt(PreserveLeaves(desired, y, leaves), if k in leaves && k in y then y else desired, k)
  {
  }

  lemma RouteNamesItsProvider(route: Object, desired: Object, providers: Object, default: string)
    requires RouteOf(route, desired, providers, default).Some?
    ensures var y := RouteOf(route, desired, providers, default).value; var name := ProviderName(y, default);
      && y == LockEndpoint(y, name, providers)
      && Hashable(name)
      && (!Declared(providers, name) ==> y == FallBack(y, desired, default) && name == ProviderName(desired, default))
      && name == (if Declared(providers, ProviderName(route, default)) then ProviderName(route, default)
        else ProviderName(desired, default))
      && route.Keys <= y.Keys
  {
  }

  /** Locking the preserved leaves of a locked route gives the locked route. */
  lemma RouteAgain(desired: Object, existing: Object, leaves: seq<string>, providers: Object, default: string)
    requires KeepsEndpoint(leaves)
    requires RouteOf(PreserveLeaves(desired, existing, leaves), desired, providers, default).Some?
    ensures var y := RouteOf(PreserveLeaves(desired, existing, leaves), desired, providers, default).value;
      RouteOf(PreserveLeaves(desired, y, leaves), desired, providers, default) == Some(y)
  {
    var x := PreserveLeaves(desired, existing, leaves);
    var y := RouteOf(x, desired, providers, default).value;
    var z := PreserveLeaves(desired, y, leaves);
    RouteNamesItsProvider(x, desired, providers, default);
    var name := ProviderName(y, default);
    forall k ensures k !in ENDPOINT ==> SameAt(z, y, k) {
      PreserveOfRoute(desired, y, leaves, k);
      if k !in leaves && k !in ENDPOINT {
        RouteOutsideLeaves(desired, existing, leaves, providers, default, k);
      }
    }
    assert SameAt(z, y, "provider");
    if Declared(providers, name) && providers[name.text].Map? {
      SameOutsideEndpoint(z, y, name, providers);
    } else {
      forall k | k in ENDPOINT ensures SameAt(z, y, k) {
        PreserveOfRoute(desired, y, leaves, k);
        RouteWithoutEndpoint(desired, existing, leaves, providers, default, k);
      }
      SameEverywhere(z, y);
    }
  }

  lemma SameOutsideEndpoint(z: Object, y: Object, name: Tree, providers: Object)
    requires Declared(providers, name) && providers[name.text].Map? && y == LockEndpoint(y, name, providers)
    requires forall k :: k !in ENDPOINT ==> SameAt(z, y, k)
    ensures LockEndpoint(z, name, providers) == y
  {
    var w := LockEndpoint(z, name, providers);
    forall k ensures SameAt(w, y, k) {
      LockEndpointKeeps(z, name, providers);
      assert k !in ENDPOINT ==> SameAt(z, y, k);
    }
    SameEverywhere(w, y);
  }

  lemma SameEverywhere(a: Object, b: Object)
    requires forall k :: SameAt(a, b, k)
    ensures a == b
  {
    assert forall k :: k in a <==> k in b by {
      forall k ensures k in a <==> k in b {
        assert SameAt(a, b, k);
      }
    }
    forall k | k in a ensures a[k] == b[k] {
      assert SameAt(a, b, k);
    }
  }

  lemma PlainRouteAgain(route: Object, desired: Object, providers: Object, default: string)
    requires RouteOf(route, desired, providers, default).Some?
    ensures var y := RouteOf(route, desired, providers, default).value;
      RouteOf(y, desired, providers, default) == Some(y)
  {
    var y := RouteOf(route, desired, providers, default).value;
    if Declared(providers, ProviderName(route, default)) {
      assert LockEndpoint(y, ProviderName(route, default), providers) == y;
    } else {
      var name := ProviderName(desired, default);
      if Declared(providers, name) {
        assert LockEndpoint(y, name, providers) == y;
      } else {
        assert FallBack(y, desired, default) == y;
      }
    }
  }

  /* The sections before locking */

  function Lookup(m: Object, k: string): Option<Tree> {
    if k in m then Some(m[k]) else None
  }

  /** A section that is not rebuilt reads as existing, or else as desired. */
  function Inherited(existing: Object, desired: Object, k: string): Option<Tree> {
    if k in existing then Some(existing[k]) else Lookup(desired, k)
  }

  function SectionOf(existing: Object, desired: Object, key: string, leaves: seq<string>): Option<Tree> {
    if HasMap(desired, key) && (key !in existing || HasMap(existing, key)) then
      Some(Map(PreserveLeaves(desired[key].entries, Entries(existing, key), leaves)))
    else Inherited(existing, desired, key)
  }

  function AgentOf(existing: Object, desired: Object): Option<Tree> {
    if HasMap(desired, "agent") then AgentSection(existing, desired) else Inherited(existing, desired, "agent")
  }

  function AuxiliaryOf(existing: Object, desired: Object): Option<Tree> {
    if HasMap(desired, "auxiliary") then AuxiliarySection(existing, desired)
      else Inherited(existing, desired, "auxiliary")
  }

  lemma MergedTop(existing: Object, desired: Object, k: string)
    requires !HasMap(desired, k) || !HasMap(existing, k)
    ensures Lookup(MergeObjects(desired, existing), k) == Inherited(existing, desired, k)
  {
    var m := MergeObjects(desired, existing);
    if k in existing && k in desired {
      assert m[k] == DeepMerge(desired[k], existing[k]) == existing[k];
    }
  }

  /** The sections of an assembled configuration, one by one. */
  predicate HasSections(a: Object, existing: Object, desired: Object) {
    && Lookup(a, "agent") == AgentOf(existing, desired)
    && Lookup(a, "model") == SectionOf(existing, desired, "model", MODEL_LEAVES)
    && Lookup(a, "delegation") == SectionOf(existing, desired, "delegation", ROUTE_LEAVES)
    && Lookup(a, "auxiliary") == AuxiliaryOf(existing, desired)
  }

  function OrElse(a: Option<Tree>, b: Option<Tree>): Option<Tree> {
    if a.Some? then a else b
  }

  lemma PutLookup(m: Object, key: string, value: Option<Tree>, k: string)
    ensures Lookup(Put(m, key, value), k) == if k == key then OrElse(value, Lookup(m, k)) else Lookup(m, k)
  {
  }

  /** The first pass, with each section put in place. */
  lemma AssembledLookup(existing: Object, desired: Object, k: string)
    ensures Separate(HERMES_OWNED)
    ensures Lookup(Assembled(existing, desired), k) == OrElse(
      match k
      case "agent" => AgentSection(existing, desired)
      case "model" => RouteSection(existing, desired, "model", MODEL_LEAVES)
      case "delegation" => RouteSection(existing, desired, "delegation", ROUTE_LEAVES)
      case "auxiliary" => AuxiliarySection(existing, desired)
      case _ => None, Lookup(Reconciled(existing, desired, HERMES_OWNED), k))
  {
    HermesPathsNonEmpty();
    var r0 := Reconciled(existing, desired, HERMES_OWNED);
    var r1 := Put(r0, "agent", AgentSection(existing, desired));
    var r2 := Put(r1, "model", RouteSection(existing, desired, "model", MODEL_LEAVES));
    var r3 := Put(r2, "delegation", RouteSection(existing, desired, "delegation", ROUTE_LEAVES));
    PutLookup(r0, "agent", AgentSection(existing, desired), k);
    PutLookup(r1, "model", RouteSection(existing, desired, "model", MODEL_LEAVES), k);
    PutLookup(r2, "delegation", RouteSection(existing, desired, "delegation", ROUTE_LEAVES), k);
    PutLookup(r3, "auxiliary", AuxiliarySection(existing, desired), k);
  }

  /** What the first pass leaves of a section that is not rebuilt. */
  lemma MergedSection(existing: Object, desired: Object, k: string)
    requires k in SECTIONS && (!HasMap(desired, k) || !HasMap(existing, k))
    ensures Separate(HERMES_OWNED)
    ensures Lookup(Reconciled(existing, desired, HERMES_OWNED), k) == Inherited(existing, desired, k)
  {
    SectionsAreMerged(existing, desired, k);
    MergedTop(existing, desired, k);
  }

  lemma AssembledRoute(existing: Object, desired: Object, key: string, leaves: seq<string>)
    requires (key == "model" && leaves == MODEL_LEAVES) || (key == "delegation" && leaves == ROUTE_LEAVES)
    ensures Lookup(Assembled(existing, desired), key) == SectionOf(existing, desired, key, leaves)
  {
    AssembledLookup(existing, desired, key);
    if !HasMap(desired, key) || !HasMap(existing, key) {
      MergedSection(existing, desired, key);
    }
    UnpreservedIsDesired(existing, desired, key, leaves);
  }

  lemma AssembledAgent(existing: Object, desired: Object)
    ensures Lookup(Assembled(existing, desired), "agent") == AgentOf(existing, desired)
  {
    AssembledLookup(existing, desired, "agent");
    if !HasMap(desired, "agent") {
      MergedSection(existing, desired, "agent");
    }
  }

  lemma AssembledAuxiliary(existing: Object, desired: Object)
    ensures Lookup(Assembled(existing, desired), "auxiliary") == AuxiliaryOf(existing, desired)
  {
    AssembledLookup(existing, desired, "auxiliary");
    if !HasMap(desired, "auxiliary") {
      MergedSection(existing, desired, "auxiliary");
    }
  }

  lemma AssembledElsewhere(existing: Object, desired: Object, k: string)
    requires k !in SECTIONS
    ensures Separate(HERMES_OWNED)
    ensures SameAt(Assembled(existing, desired), Reconciled(existing, desired, HERMES_OWNED), k)
  {
    AssembledLookup(existing, desired, k);
    SameLookup(Assembled(existing, desired), Reconciled(existing, desired, HERMES_OWNED), k);
  }

  lemma SameLookup(a: Object, b: Object, k: string)
    ensures SameAt(a, b, k) <==> Lookup(a, k) == Lookup(b, k)
  {
  }

  lemma AssembledSections(existing: Object, desired: Object)
    ensures HasSections(Assembled(existing, desired), existing, desired)
    ensures Separate(HERMES_OWNED)
    ensures forall k | k !in SECTIONS ::
      SameAt(Assembled(existing, desired), Reconciled(existing, desired, HERMES_OWNED), k)
  {
    AssembledAgent(existing, desired);
    AssembledRoute(existing, desired, "model", MODEL_LEAVES);
    AssembledRoute(existing, desired, "delegation", ROUTE_LEAVES);
    AssembledAuxiliary(existing, desired);
    HermesPathsNonEmpty();
    forall k | k !in SECTIONS
      ensures SameAt(Assembled(existing, desired), Reconciled(existing, desired, HERMES_OWNED), k)
    {
      AssembledElsewhere(existing, desired, k);
    }
  }

  lemma UnpreservedIsDesired(existing: Object, desired: Object, key: string, leaves: seq<string>)
    ensures HasMap(desired, key) && key !in existing ==>
      SectionOf(existing, desired, key, leaves) == Some(desired[key])
  {
    if HasMap(desired, key) && key !in existing {
      assert PreserveLeaves(desired[key].entries, map[], leaves) == desired[key].entries;
    }
  }

  /* The second pass */

  /** A section left alone by the first pass is left alone by the second. */
  lemma SectionStays(existing: Object, desired: Object, r: Object, key: string, leaves: seq<string>)
    requires Lookup(r, key) == SectionOf(existing, desired, key, leaves)
    ensures SectionOf(r, desired, key, leaves) == Lookup(r, key)
  {
    if HasMap(desired, key) && (key !in existing || HasMap(existing, key)) {
      PreserveAgain(desired[key].entries, Entries(existing, key), leaves);
    }
  }

  lemma AgentStays(existing: Object, desired: Object, r: Object)
    requires Lookup(r, "agent") == AgentOf(existing, desired)
    ensures AgentOf(r, desired) == Lookup(r, "agent")
  {
    if HasMap(desired, "agent") {
      PreserveAgain(desired["agent"].entries, Entries(existing, "agent"), AGENT_LEAVES);
    }
  }

  lemma AuxiliaryStays(existing: Object, desired: Object, r: Object)
    requires Lookup(r, "auxiliary") == AuxiliaryOf(existing, desired)
    ensures AuxiliaryOf(r, desired) == Lookup(r, "auxiliary")
  {
    if HasMap(desired, "auxiliary") {
      var routes := desired["auxiliary"].entries;
      forall n | n in routes
        ensures AuxiliaryRoute(Entries(r, "auxiliary"), n, routes[n]) ==
          AuxiliaryRoute(Entries(existing, "auxiliary"), n, routes[n])
      {
        if routes[n].Map? {
          PreserveAgain(routes[n].entries, Entries(Entries(existing, "auxiliary"), n), ROUTE_LEAVES);
        }
      }
      assert AuxiliarySection(r, desired).value.entries == AuxiliarySection(existing, desired).value.entries;
    }
  }

  /** A locked section, taken as existing, locks to itself. */
  lemma SectionLocksAgain(existing: Object, desired: Object, r: Object, key: string, leaves: seq<string>,
      providers: Object, default: string)
    requires KeepsEndpoint(leaves) && HasMap(desired, key) && HasMap(r, key)
    requires var s := SectionOf(existing, desired, key, leaves);
      s.Some? && s.value.Map? && RouteOf(s.value.entries, desired[key].entries, providers, default) ==
        Some(r[key].entries)
    ensures var s := SectionOf(r, desired, key, leaves);
      s.Some? && s.value.Map? && RouteOf(s.value.entries, desired[key].entries, providers, default) ==
        Some(r[key].entries)
  {
    RouteAgain(desired[key].entries, Entries(existing, key), leaves, providers, default);
  }

  lemma AuxiliaryLocksAgain(existing: Object, desired: Object, r: Object, providers: Object, default: string)
    requires var s := AuxiliaryOf(existing, desired);
      s.Some? && s.value.Map? && HasMap(r, "auxiliary")
      && LockedRoutes(s.value.entries, Entries(desired, "auxiliary"), providers, default) ==
        Some(r["auxiliary"].entries)
    ensures var s := AuxiliaryOf(r, desired);
      s.Some? && s.value.Map?
      && LockedRoutes(s.value.entries, Entries(desired, "auxiliary"), providers, default) ==
        Some(r["auxiliary"].entries)
  {
    var first, locked := AuxiliaryOf(existing, desired).value.entries, r["auxiliary"].entries;
    var second := AuxiliaryOf(r, desired).value.entries;
    var wanted := Entries(desired, "auxiliary");
    assert second.Keys == first.Keys == locked.Keys;
    forall n | n in second
      ensures LockedRoute(second[n], GetOr(wanted, n, Map(map[])), providers, default) == Some(locked[n]) {
      assert LockedRoute(first[n], GetOr(wanted, n, Map(map[])), providers, default) == Some(locked[n]);
      AuxiliaryRouteLocksAgain(existing, desired, n, providers, default);
    }
    assert locked == map n | n in second ::
      LockedRoute(second[n], GetOr(wanted, n, Map(map[])), providers, default).value;
  }

  lemma AuxiliaryRouteLocksAgain(existing: Object, desired: Object, n: string, providers: Object, default: string)
    requires var s := AuxiliaryOf(existing, desired); s.Some? && s.value.Map? && n in s.value.entries
    requires LockedRoute(AuxiliaryOf(existing, desired).value.entries[n],
      GetOr(Entries(desired, "auxiliary"), n, Map(map[])), providers, default).Some?
    ensures var route := GetOr(Entries(desired, "auxiliary"), n, Map(map[]));
      var y := LockedRoute(AuxiliaryOf(existing, desired).value.entries[n], route, providers, default).value;
      && (HasMap(desired, "auxiliary") && route.Map? && y.Map? ==>
           LockedRoute(Map(PreserveLeaves(route.entries, y.entries, ROUTE_LEAVES)), route, providers, default) ==
             Some(y))
      && (HasMap(desired, "auxiliary") ==> y.Map? == route.Map? && (!route.Map? ==> y == route))
      && (!HasMap(desired, "auxiliary") ==> LockedRoute(y, route, providers, default) == Some(y))
  {
    var route := GetOr(Entries(desired, "auxiliary"), n, Map(map[]));
    var x := AuxiliaryOf(existing, desired).value.entries[n];
    if x.Map? && route.Map? {
      if HasMap(desired, "auxiliary") {
        RouteAgain(route.entries, Entries(Entries(existing, "auxiliary"), n), ROUTE_LEAVES, providers, default);
      } else {
        PlainRouteAgain(x.entries, route.entries, providers, default);
      }
    }
  }

  lemma ModelLocksAgain(existing: Object, desired: Object, show: Show, a: Object, b: Object, r: Object)
    requires HasSections(a, existing, desired) && HasSections(b, r, desired) && SameAt(a, b, "providers")
    requires LocksRoutes(a, desired) && IsLocked(a, desired, show, r)
    ensures LocksRoutes(b, desired)
    ensures RouteOf(b["model"].entries, desired["model"].entries, b["providers"].entries,
                    PyStr(show, GetOr(desired["model"].entries, "provider", Str("anthropic")))) ==
                      Some(r["model"].entries)
  {
    assert Lookup(a, "model") == SectionOf(existing, desired, "model", MODEL_LEAVES);
    SectionLocksAgain(existing, desired, r, "model", MODEL_LEAVES, a["providers"].entries,
                      PyStr(show, GetOr(desired["model"].entries, "provider", Str("anthropic"))));
    assert Lookup(b, "model") == SectionOf(r, desired, "model", MODEL_LEAVES);
  }

  lemma DelegationLocksAgain(existing: Object, desired: Object, default: string, a: Object, b: Object, r: Object)
    requires HasSections(a, existing, desired) && HasSections(b, r, desired)
    requires HasMap(a, "providers") && SameAt(a, b, "providers")
    requires IsLockedDelegation(a, desired, default, r)
    ensures IsLockedDelegation(b, desired, default, r)
    ensures "delegation" in b <==> "delegation" in r
  {
    assert Lookup(a, "delegation") == SectionOf(existing, desired, "delegation", ROUTE_LEAVES);
    assert Lookup(b, "delegation") == SectionOf(r, desired, "delegation", ROUTE_LEAVES);
    if HasMap(a, "delegation") && HasMap(desired, "delegation") {
      SectionLocksAgain(existing, desired, r, "delegation", ROUTE_LEAVES, a["providers"].entries, default);
    } else {
      SectionStays(existing, desired, r, "delegation", ROUTE_LEAVES);
    }
  }

  lemma AuxiliarySectionLocksAgain(existing: Object, desired: Object, default: string, a: Object, b: Object, r: Object)
    requires HasSections(a, existing, desired) && HasSections(b, r, desired)
    requires HasMap(a, "providers") && SameAt(a, b, "providers")
    requires IsLockedAuxiliary(a, desired, default, r)
    ensures IsLockedAuxiliary(b, desired, default, r)
    ensures "auxiliary" in b <==> "auxiliary" in r
  {
    assert Lookup(a, "auxiliary") == AuxiliaryOf(existing, desired);
    assert Lookup(b, "auxiliary") == AuxiliaryOf(r, desired);
    if HasMap(a, "auxiliary") {
      AuxiliaryLocksAgain(existing, desired, r, a["providers"].entries, default);
    } else {
      AuxiliaryStays(existing, desired, r);
    }
  }

  /** The first pass's routes, taken as existing ones, are the second pass's routes. */
  lemma RoutesLockAgain(existing: Object, desired: Object, show: Show, a: Object, b: Object, r: Object)
    requires HasSections(a, existing, desired) && HasSections(b, r, desired) && SameAt(a, b, "providers")
    requires LocksRoutes(a, desired) && IsLocked(a, desired, show, r)
    ensures LocksRoutes(b, desired)
    ensures RouteOf(b["model"].entries, desired["model"].entries, b["providers"].entries,
                    PyStr(show, GetOr(desired["model"].entries, "provider", Str("anthropic")))) ==
                      Some(r["model"].entries)
    ensures var default := DefaultProvider(show, r["model"].entries, desired["model"].entries);
      IsLockedDelegation(b, desired, default, r) && IsLockedAuxiliary(b, desired, default, r)
    ensures forall k | k in SECTIONS :: k in b <==> k in r
    ensures SameAt(b, r, "agent")
  {
    AgentIsStable(existing, desired, show, a, b, r);
    ModelLocksAgain(existing, desired, show, a, b, r);
    var default := DefaultProvider(show, r["model"].entries, desired["model"].entries);
    DelegationLocksAgain(existing, desired, default, a, b, r);
    AuxiliarySectionLocksAgain(existing, desired, default, a, b, r);
  }

  lemma AgentIsStable(existing: Object, desired: Object, show: Show, a: Object, b: Object, r: Object)
    requires HasSections(a, existing, desired) && HasSections(b, r, desired) && IsLocked(a, desired, show, r)
    ensures SameAt(b, r, "agent")
  {
    assert Lookup(r, "agent") == Lookup(a, "agent");
    AgentStays(existing, desired, r);
    assert Lookup(b, "agent") == AgentOf(r, desired);
  }

  /** Without route locking the sections do not change at all. */
  lemma SectionsStay(existing: Object, desired: Object, a: Object, b: Object)
    requires HasSections(a, existing, desired) && HasSections(b, a, desired) && SameAt(a, b, "providers")
    ensures forall k | k in SECTIONS :: SameAt(b, a, k)
    ensures LocksRoutes(b, desired) <==> LocksRoutes(a, desired)
  {
    AgentStays(existing, desired, a);
    SectionStays(existing, desired, a, "model", MODEL_LEAVES);
    SectionStays(existing, desired, a, "delegation", ROUTE_LEAVES);
    AuxiliaryStays(existing, desired, a);
    assert Lookup(b, "agent") == Lookup(a, "agent") && Lookup(b, "model") == Lookup(a, "model");
    assert Lookup(b, "delegation") == Lookup(a, "delegation") && Lookup(b, "auxiliary") == Lookup(a, "auxiliary");
  }

  /** Given that the owned part is stable, the locked result of the first pass satisfies the second. */
  lemma SecondPassLocks(existing: Object, desired: Object, show: Show, a: Object, b: Object, r: Object)
    requires HasSections(a, existing, desired) && HasSections(b, r, desired) && SameAt(a, b, "providers")
    requires IsLocked(a, desired, show, r)
    requires forall k | k !in SECTIONS :: SameAt(b, r, k)
    ensures IsLocked(b, desired, show, r)
  {
    if LocksRoutes(a, desired) {
      RoutesLockAgain(existing, desired, show, a, b, r);
      SameKeysOutside(b, r);
    } else {
      SectionsStay(existing, desired, a, b);
      forall k ensures SameAt(b, r, k) {
        assert k in SECTIONS || SameAt(b, r, k);
      }
      SameEverywhere(b, r);
    }
  }

  lemma SameKeysOutside(b: Object, r: Object)
    requires forall k | k !in SECTIONS :: SameAt(b, r, k)
    requires forall k | k in SECTIONS :: k in b <==> k in r
    requires SameAt(b, r, "agent")
    ensures b.Keys == r.Keys && forall k | k in b && k !in LOCKABLE :: r[k] == b[k]
  {
    forall k ensures (k in b <==> k in r) && (k in b && k !in LOCKABLE ==> r[k] == b[k]) {
      assert k in SECTIONS || SameAt(b, r, k);
    }
  }

  /** A second pass never raises TypeError: every route it locks, the first pass has locked. */
  lemma SecondPassSucceeds(existing: Object, desired: Object, show: Show, a: Object, b: Object, r: Object)
    requires HasSections(a, existing, desired) && HasSections(b, r, desired) && SameAt(a, b, "providers")
    requires IsLocked(a, desired, show, r)
    ensures Locked(b, desired, show).Some?
  {
    if LocksRoutes(a, desired) {
      RoutesLockAgain(existing, desired, show, a, b, r);
      LockingSucceeds(b, desired, show, r);
    } else {
      SectionsStay(existing, desired, a, b);
    }
  }

  lemma OutsideSections(existing: Object, desired: Object, show: Show, k: string)
    requires HermesOf(existing, desired, show).Some? && k !in SECTIONS
    ensures SameAt(HermesOf(existing, desired, show).value, Reconciled(existing, desired, HERMES_OWNED), k)
  {
    AssembledSections(existing, desired);
    LockedSatisfies(Assembled(existing, desired), desired, show);
  }

  /**
   Reconciling a Hermes configuration again changes nothing exactly when the first pass rebuilt
   nothing that the merge refills.
   */
  lemma HermesIdempotentExactly(existing: Object, desired: Object, show: Show)
    requires HermesOf(existing, desired, show).Some?
    ensures var once := HermesOf(existing, desired, show).value;
      HermesOf(once, desired, show) == Some(once) <==> Undisturbed(existing, desired, HERMES_OWNED)
  {
    var once := HermesOf(existing, desired, show).value;
    var first := Reconciled(existing, desired, HERMES_OWNED);
    HermesPathsNonEmpty();
    IdempotentExactly(existing, desired, HERMES_OWNED);
    forall k | k !in SECTIONS
      ensures SameAt(Reconciled(once, desired, HERMES_OWNED), Reconciled(first, desired, HERMES_OWNED), k)
      ensures SameAt(once, first, k)
    {
      OutsideSections(existing, desired, show, k);
      ReconciledKeywise(once, first, desired, HERMES_OWNED, k);
    }
    if Undisturbed(existing, desired, HERMES_OWNED) {
      AssembledSections(once, desired);
      LockedSatisfies(Assembled(existing, desired), desired, show);
      forall k | k !in SECTIONS ensures SameAt(Assembled(once, desired), once, k) {
        assert SameAt(once, first, k);
      }
      AssembledSections(existing, desired);
      ProvidersAreOwned(existing, desired);
      ProvidersAreOwned(once, desired);
      SecondPassLocks(existing, desired, show, Assembled(existing, desired), Assembled(once, desired), once);
      LockedIsUnique(Assembled(once, desired), desired, show, once);
    }
    if HermesOf(once, desired, show) == Some(once) {
      forall k ensures SameAt(Reconciled(first, desired, HERMES_OWNED), first, k) {
        if k !in SECTIONS {
          OutsideSections(once, desired, show, k);
        } else {
          MergedSectionStays(existing, desired, k);
        }
      }
      SameEverywhere(Reconciled(first, desired, HERMES_OWNED), first);
    }
  }

  lemma MergedSectionStays(existing: Object, desired: Object, k: string)
    requires k in SECTIONS
    ensures var first := Reconciled(existing, desired, HERMES_OWNED);
      SameAt(Reconciled(first, desired, HERMES_OWNED), first, k)
  {
    var merged := MergeObjects(desired, existing);
    SectionsAreMerged(existing, desired, k);
    SectionsAreMerged(Reconciled(existing, desired, HERMES_OWNED), desired, k);
    MergeCovers(Map(desired), Map(existing));
    CoversMeansAbsorbed(Map(desired), Map(merged));
    assert MergeObjects(desired, merged) == merged;
  }

  /** From the second pass on a Hermes configuration is final. */
  lemma HermesStableFromTheSecondPass(existing: Object, desired: Object, show: Show)
    requires HermesOf(existing, desired, show).Some?
    ensures var twice := HermesOf(HermesOf(existing, desired, show).value, desired, show);
      twice.Some? && HermesOf(twice.value, desired, show) == twice
  {
    var once := HermesOf(existing, desired, show).value;
    HermesPathsNonEmpty();
    assert Undisturbed(once, desired, HERMES_OWNED) by {
      var first := Reconciled(existing, desired, HERMES_OWNED);
      forall p, n: nat | Present(desired, HERMES_OWNED, p) && n < |p| ensures !NonMap(GetPath(Map(once), p[..n])) {
        ReadsAbove(MergeObjects(desired, existing), desired, HERMES_OWNED, p, p[..n]);
        if n > 0 {
          OwnedHead(p);
          OutsideSections(existing, desired, show, p[0]);
        }
      }
    }
    ProvidersAreOwned(existing, desired);
    ProvidersAreOwned(once, desired);
    LockedSatisfies(Assembled(existing, desired), desired, show);
    AssembledSections(existing, desired);
    AssembledSections(once, desired);
    SecondPassSucceeds(existing, desired, show, Assembled(existing, desired), Assembled(once, desired), once);
    HermesIdempotentExactly(once, desired, show);
  }

  lemma ReconciledProviders(existing: Object, desired: Object)
    ensures Separate(HERMES_OWNED)
    ensures SameAt(Reconciled(existing, desired, HERMES_OWNED), desired, "providers")
  {
    HermesPathsNonEmpty();
    assert HERMES_OWNED[0] == ["providers"] && ["providers"] + [] == ["providers"];
    ReadsOwned(MergeObjects(desired, existing), desired, HERMES_OWNED, ["providers"], []);
    GetOne(Map(Reconciled(existing, desired, HERMES_OWNED)), "providers");
    GetOne(Map(desired), "providers");
  }

  lemma ProvidersAreOwned(existing: Object, desired: Object)
    ensures SameAt(Assembled(existing, desired), desired, "providers")
  {
    ReconciledProviders(existing, desired);
    AssembledElsewhere(existing, desired, "providers");
  }

  lemma OwnedHead(p: Path)
    requires p in HERMES_OWNED
    ensures p != [] && p[0] !in SECTIONS
  {
    var i :| 0 <= i < |HERMES_OWNED| && HERMES_OWNED[i] == p;
  }

  /** A scalar in place of `approvals` is rebuilt by the first pass and refilled by the second. */
  lemma HermesMayNeedTwoPasses(show: Show)
    ensures var existing := map["approvals" := Int(0)];
      var desired := map["approvals" := Map(map["mode" := Str("smart"), "other" := Bool(true)])];
      var once := HermesOf(existing, desired, show);
      once.Some? && HermesOf(once.value, desired, show) != once
  {
    var existing: Object := map["approvals" := Int(0)];
    var approvals := Map(map["mode" := Str("smart"), "other" := Bool(true)]);
    var desired: Object := map["approvals" := approvals];
    var p, t := ["approvals", "mode"], ["approvals", "other"];
    BelowTheHead(existing, "approvals", []);
    BelowTheHead(desired, "approvals", ["mode"]);
    BelowTheHead(desired, "approvals", ["other"]);
    GetOne(approvals, "mode");
    GetOne(approvals, "other");
    assert p == ["approvals"] + ["mode"] && t == ["approvals"] + ["other"] && ["approvals"] + [] == ["approvals"];
    assert p == HERMES_OWNED[12] && Present(desired, HERMES_OWNED, p);
    assert p[..1] == ["approvals"] == t[..1];
    forall q | q in HERMES_OWNED ensures q != [] && (q[0] == "approvals" ==> q == ["approvals", "mode"]) {
      OwnedHead(q);
    }
    OtherIsUnowned(desired, HERMES_OWNED, "approvals", "mode", "other");
    assert t == ["approvals", "other"];
    assert !Undisturbed(existing, desired, HERMES_OWNED) by {
      assert NonMap(GetPath(Map(existing), p[..1])) && p[..1] <= t && GetPath(Map(desired), t).Some?;
    }
    assert !LocksRoutes(Assembled(existing, desired), desired);
    HermesIdempotentExactly(existing, desired, show);
  }
}
