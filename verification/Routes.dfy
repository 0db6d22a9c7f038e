/**
 The routing table of the webhook listener: which (agent, route) pairs it
 accepts and which path and target each of them compiles to.
 */
module Routes {
  import opened Prelude

  predicate NameStart(c: char) {
    'a' <= c <= 'z'
  }

  predicate NameChar(c: char) {
    NameStart(c) || IsDigit(c) || c == '-'
  }

  /** `^[a-z][a-z0-9-]{0,62}$` without two consecutive hyphens. */
  predicate ValidRouteName(name: string) {
    && 1 <= |name| <= 63
    && NameStart(name[0])
    && (forall i | 1 <= i < |name| :: NameChar(name[i]))
    && (forall i | 0 <= i < |name| - 1 :: !(name[i] == '-' && name[i + 1] == '-'))
  }

  /** `^[a-z][a-z0-9_.-]{0,252}$`. */
  predicate ValidSecretFile(name: string) {
    && 1 <= |name| <= 253
    && NameStart(name[0])
    && (forall i | 1 <= i < |name| :: NameChar(name[i]) || name[i] == '_' || name[i] == '.')
  }

  predicate SupportedProvider(provider: string) {
    provider in {"pagerduty", "github", "gitlab", "svix", "generic-v2", "alertmanager"}
  }

  /** A parsed target URL; splitting the text is the URL library's work. */
  datatype Url = Url(scheme: string, host: string, path: string, rawQuery: string, fragment: string, hasUser: bool)

  /** `target` is None when the library cannot parse the configured text. */
  datatype Route = Route(agent: string, route: string, provider: string, secretFile: string, target: Option<Url>)

  datatype CompiledRoute = CompiledRoute(route: Route, target: Url)

  datatype ConfigError =
    | NoRoutes
    | InvalidAgent(index: nat)
    | InvalidRouteName(index: nat)
    | InvalidSecretFile(index: nat)
    | UnsupportedProvider(index: nat)
    | InvalidTarget(index: nat)
    | WrongTarget(index: nat)
    | DuplicatePath(path: string)

  function TargetHost(agent: string): string {
    agent + "-webhook.agent-sandbox.svc.cluster.local:8644"
  }

  function TargetFor(agent: string, route: string): Url {
    Url("http", TargetHost(agent), "/webhooks/" + route, "", "", false)
  }

  function RoutePath(agent: string, route: string): string {
    "/webhooks/" + agent + "/" + route
  }

  /** The first rule a route breaks on its own, in the order the compiler applies them. */
  function RouteError(index: nat, r: Route): Option<ConfigError> {
    if !ValidRouteName(r.agent) then Some(InvalidAgent(index))
    else if !ValidRouteName(r.route) then Some(InvalidRouteName(index))
    else if !ValidSecretFile(r.secretFile) then Some(InvalidSecretFile(index))
    else if !SupportedProvider(r.provider) then Some(UnsupportedProvider(index))
    else if r.target.None? then Some(InvalidTarget(index))
    else if r.target.value != TargetFor(r.agent, r.route) then Some(WrongTarget(index))
    else None
  }

  ghost predicate SamePair(a: Route, b: Route) {
    a.agent == b.agent && a.route == b.route
  }

  /** Valid routes have no `/` in their names, so a path determines its pair. */
  lemma {:induction false} RoutePathSeparates(agent: string, route: string, agent': string, route': string)
    requires ValidRouteName(agent) && ValidRouteName(agent')
    ensures RoutePath(agent, route) == RoutePath(agent', route') <==> agent == agent' && route == route'
  {
    if RoutePath(agent, route) == RoutePath(agent', route') {
      var p := "/webhooks/";
      assert RoutePath(agent, route) == p + (agent + ['/'] + route);
      assert RoutePath(agent', route') == p + (agent' + ['/'] + route');
      PrefixCancels(p, agent + ['/'] + route, agent' + ['/'] + route');
      CutUnique(agent, agent', '/', route, route');
    }
  }

  /** Route `index` is the first one that cannot be compiled, and `error` says why. */
  ghost predicate FirstFailure(routes: seq<Route>, index: nat, error: ConfigError) {
    && index < |routes|
    && Compilable(routes, index)
    && match RouteError(index, routes[index])
       case Some(e) => error == e
       case None =>
         && error == DuplicatePath(RoutePath(routes[index].agent, routes[index].route))
         && exists j | 0 <= j < index :: SamePair(routes[j], routes[index])
  }

  /** The first `n` routes break no rule and name pairwise different (agent, route) pairs. */
  ghost predicate Compilable(routes: seq<Route>, n: nat)
    requires n <= |routes|
  {
    && (forall i | 0 <= i < n :: RouteError(i, routes[i]) == None)
    && (forall i, j | 0 <= i < j < n :: !SamePair(routes[i], routes[j]))
  }

  lemma PathsSeparate(routes: seq<Route>, index: nat)
    requires index < |routes| && Compilable(routes, index) && RouteError(index, routes[index]) == None
    ensures forall i | 0 <= i < index ::
      RoutePath(routes[i].agent, routes[i].route) == RoutePath(routes[index].agent, routes[index].route)
      <==> SamePair(routes[i], routes[index])
  {
    forall i | 0 <= i < index
      ensures RoutePath(routes[i].agent, routes[i].route) == RoutePath(routes[index].agent, routes[index].route)
              <==> SamePair(routes[i], routes[index])
    {
      assert RouteError(i, routes[i]) == None;
      RoutePathSeparates(routes[i].agent, routes[i].route, routes[index].agent, routes[index].route);
    }
  }

  /** The first `n` routes and the compiled paths correspond one to one, each with its own agent's target. */
  ghost predicate Corresponds(routes: seq<Route>, n: nat, compiled: map<string, CompiledRoute>)
    requires n <= |routes|
  {
    && |compiled| == n
    && (forall i | 0 <= i < n :: BoundTo(compiled, routes[i]))
    && (forall path | path in compiled :: exists i | 0 <= i < n :: path == RoutePath(routes[i].agent, routes[i].route))
  }

  ghost predicate BoundTo(compiled: map<string, CompiledRoute>, r: Route) {
    var path := RoutePath(r.agent, r.route);
    path in compiled && compiled[path] == CompiledRoute(r, TargetFor(r.agent, r.route))
  }

  /** Where the path is new, so is the pair. */
  lemma NewPathNewPair(routes: seq<Route>, n: nat, compiled: map<string, CompiledRoute>, i: nat)
    requires i < n < |routes| && Corresponds(routes, n, compiled)
    requires RoutePath(routes[n].agent, routes[n].route) !in compiled
    ensures !SamePair(routes[i], routes[n])
  {
    assert BoundTo(compiled, routes[i]);
  }

  lemma CompilableGrows(routes: seq<Route>, n: nat)
    requires n < |routes| && Compilable(routes, n) && RouteError(n, routes[n]) == None
    requires forall i | 0 <= i < n :: !SamePair(routes[i], routes[n])
    ensures Compilable(routes, n + 1)
  {
    forall i, j | 0 <= i < j < n + 1 ensures !SamePair(routes[i], routes[j]) {
      assert j < n ==> !SamePair(routes[i], routes[j]);
    }
  }

  lemma NewPathCorresponds(routes: seq<Route>, n: nat, compiled: map<string, CompiledRoute>)
    requires n < |routes| && RouteError(n, routes[n]) == None && Corresponds(routes, n, compiled)
    requires RoutePath(routes[n].agent, routes[n].route) !in compiled
    ensures Corresponds(routes, n + 1,
      compiled[RoutePath(routes[n].agent, routes[n].route) := CompiledRoute(routes[n], routes[n].target.value)])
  {
    var path := RoutePath(routes[n].agent, routes[n].route);
    var compiled' := compiled[path := CompiledRoute(routes[n], routes[n].target.value)];
    forall i | 0 <= i < n + 1 ensures BoundTo(compiled', routes[i]) {
      assert i < n ==> BoundTo(compiled, routes[i]);
    }
    forall p | p in compiled' ensures exists i | 0 <= i < n + 1 :: p == RoutePath(routes[i].agent, routes[i].route) {
      if p == path {
        assert p == RoutePath(routes[n].agent, routes[n].route);
      } else {
        var i :| 0 <= i < n && p == RoutePath(routes[i].agent, routes[i].route);
      }
    }
  }

  lemma ExtendCorrespondence(routes: seq<Route>, n: nat, compiled: map<string, CompiledRoute>)
    requires n < |routes| && Compilable(routes, n) && RouteError(n, routes[n]) == None
    requires Corresponds(routes, n, compiled)
    requires forall i | 0 <= i < n ::
      RoutePath(routes[i].agent, routes[i].route) == RoutePath(routes[n].agent, routes[n].route)
      <==> SamePair(routes[i], routes[n])
    ensures var path := RoutePath(routes[n].agent, routes[n].route);
      if path in compiled then FirstFailure(routes, n, DuplicatePath(path)) else
      && Compilable(routes, n + 1)
      && Corresponds(routes, n + 1, compiled[path := CompiledRoute(routes[n], routes[n].target.value)])
  {
    var path := RoutePath(routes[n].agent, routes[n].route);
    if path in compiled {
      var i :| 0 <= i < n && path == RoutePath(routes[i].agent, routes[i].route);
      assert SamePair(routes[i], routes[n]);
    } else {
      forall i | 0 <= i < n ensures !SamePair(routes[i], routes[n]) {
        NewPathNewPair(routes, n, compiled, i);
      }
      CompilableGrows(routes, n);
      NewPathCorresponds(routes, n, compiled);
    }
  }

  /**
   Compilation succeeds exactly on a non-empty table of correct, pairwise different
   routes; then paths and configured routes correspond one to one, and every path
   leads to the target derived from its own agent. Otherwise the error is that of
   the first route that cannot be compiled.
   */
  method CompileRoutes(routes: seq<Route>) returns (result: Result<map<string, CompiledRoute>, ConfigError>)
    ensures result.Ok? <==> routes != [] && Compilable(routes, |routes|)
    ensures result.Ok? ==> Corresponds(routes, |routes|, result.value)
    ensures result.Err? ==> if routes == [] then result.error == NoRoutes
                            else exists i | 0 <= i < |routes| :: FirstFailure(routes, i, result.error)
  {
    if |routes| == 0 {
      return Err(NoRoutes);
    }
    var compiled: map<string, CompiledRoute> := map[];
    for index := 0 to |routes|
      invariant Compilable(routes, index)
      invariant Corresponds(routes, index, compiled)
    {
      var route := routes[index];
      var broken := RouteError(index, route);
      if broken.Some? {
        assert FirstFailure(routes, index, broken.value);
        return Err(broken.value);
      }
      var path := RoutePath(route.agent, route.route);
      PathsSeparate(routes, index);
      ExtendCorrespondence(routes, index, compiled);
      if path in compiled {
        return Err(DuplicatePath(path));
      }
      compiled := compiled[path := CompiledRoute(route, route.target.value)];
    }
    return Ok(compiled);
  }

  /* What a compiled route is confined to */

  const LETTERS := "abcdefghijklmnopqrstuvwxyz"
  const DIGITS := "0123456789"

  lemma LettersAndDigits(c: char)
    ensures NameStart(c) <==> c in LETTERS
    ensures NameChar(c) <==> c in LETTERS + DIGITS + "-"
  {
    assert forall i | 0 <= i < 26 :: LETTERS[i] as int == 'a' as int + i;
    assert forall i | 0 <= i < 10 :: DIGITS[i] as int == '0' as int + i;
    if NameStart(c) {
      assert LETTERS[c as int - 'a' as int] == c;
    }
    if '0' <= c <= '9' {
      assert DIGITS[c as int - '0' as int] == c;
    }
    assert c in LETTERS + DIGITS + "-" <==> c in LETTERS || c in DIGITS || c == '-';
  }

  /** A name that may stand in a path and in an environment variable. */
  ghost predicate PlainName(name: string) {
    && 0 < |name| < 64 && name[0] in LETTERS
    && (forall c | c in name :: c in LETTERS + DIGITS + "-")
    && forall a, b :: name != a + ("--" + b)
  }

  /** A file name that stays in its directory. */
  ghost predicate PlainFile(name: string) {
    0 < |name| < 254 && name[0] in LETTERS && forall c | c in name :: c in LETTERS + DIGITS + "-_."
  }

  lemma ValidNameIsPlain(name: string)
    ensures ValidRouteName(name) <==> PlainName(name)
  {
    forall i | 0 <= i < |name|
      ensures NameStart(name[i]) <==> name[i] in LETTERS
      ensures NameChar(name[i]) <==> name[i] in LETTERS + DIGITS + "-"
    {
      LettersAndDigits(name[i]);
    }
    forall a, b | name == a + ("--" + b) ensures !ValidRouteName(name) {
      assert name[|a|] == '-' && name[|a| + 1] == '-';
    }
    if i :| 0 <= i < |name| - 1 && name[i] == '-' && name[i + 1] == '-' {
      assert name == name[..i] + ("--" + name[i + 2..]);
    }
  }

  lemma ValidFileIsPlain(name: string)
    ensures ValidSecretFile(name) <==> PlainFile(name)
  {
    forall i | 0 <= i < |name|
      ensures NameStart(name[i]) <==> name[i] in LETTERS
      ensures NameChar(name[i]) || name[i] == '_' || name[i] == '.' <==> name[i] in LETTERS + DIGITS + "-_."
    {
      LettersAndDigits(name[i]);
      assert name[i] in LETTERS + DIGITS + "-_." <==>
        name[i] in LETTERS + DIGITS + "-" || name[i] == '_' || name[i] == '.';
    }
  }

  /** Its own agent's webhook service in the cluster, and nothing beside the path. */
  predicate OwnTarget(r: Route) {
    && r.target.Some? && r.target.value.scheme == "http" && !r.target.value.hasUser
    && r.target.value.host == r.agent + "-webhook.agent-sandbox.svc.cluster.local:8644"
    && r.target.value.path == "/webhooks/" + r.route
    && r.target.value.rawQuery == "" && r.target.value.fragment == ""
  }

  /** A route is compiled exactly when all five parts are in order, and otherwise the first that is not is reported. */
  lemma RouteErrorExactly(index: nat, r: Route)
    ensures RouteError(index, r) ==
      if !PlainName(r.agent) then Some(InvalidAgent(index))
      else if !PlainName(r.route) then Some(InvalidRouteName(index))
      else if !PlainFile(r.secretFile) then Some(InvalidSecretFile(index))
      else if r.provider !in {"pagerduty", "github", "gitlab", "svix", "generic-v2", "alertmanager"} then
        Some(UnsupportedProvider(index))
      else if r.target.None? then Some(InvalidTarget(index))
      else if !OwnTarget(r) then Some(WrongTarget(index))
      else None
  {
    ValidNameIsPlain(r.agent);
    ValidNameIsPlain(r.route);
    ValidFileIsPlain(r.secretFile);
  }

  lemma ValidFileHasNoSlash(name: string)
    requires ValidSecretFile(name)
    ensures '/' !in name
  {
    forall i | 0 <= i < |name| ensures name[i] != '/' {
      assert i == 0 || NameChar(name[i]) || name[i] == '_' || name[i] == '.';
    }
  }

  /** Every path of a compiled table leads to the service of the agent it names, and to no other. */
  lemma CompiledIsConfined(routes: seq<Route>, compiled: map<string, CompiledRoute>, path: string)
    requires Compilable(routes, |routes|) && Corresponds(routes, |routes|, compiled) && path in compiled
    ensures var r := compiled[path].route;
      && r in routes && path == "/webhooks/" + r.agent + "/" + r.route
      && OwnTarget(r) && r.target == Some(compiled[path].target) && '/' !in r.secretFile
  {
    var i :| 0 <= i < |routes| && path == RoutePath(routes[i].agent, routes[i].route);
    assert BoundTo(compiled, routes[i]) && RouteError(i, routes[i]) == None;
    ValidFileHasNoSlash(routes[i].secretFile);
  }
}
