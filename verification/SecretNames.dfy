/** One signing secret per agent and route, in every set of machine values that passes. */
module SecretNames {
  import opened Prelude
  import opened ConfigTree
  import opened ValuesContract

  function MangledChar(c: char): char {
    if c == '-' then '_' else Upper(c)
  }

  function Mangled(s: string): (r: string)
    ensures |r| == |s| && forall i | 0 <= i < |s| :: r[i] == MangledChar(s[i])
  {
    if s == "" then "" else [MangledChar(s[0])] + Mangled(s[1..])
  }

  function SecretKey(agent: string, route: string): string {
    agent + "__" + route
  }

  /** The environment variable an installer reads the signing secret of a route from. */
  function SecretVariable(agent: string, route: string): string {
    "WEBHOOK_SECRET_" + Mangled(SecretKey(agent, route))
  }

  /** A release name without consecutive hyphens. */
  predicate PlainName(name: string) {
    ReleaseName(name) && !HasDoubleHyphen(name)
  }

  lemma LongerNameHasHyphens(a: string, r: string, b: string, q: string)
    requires |a| < |b| && Mangled(SecretKey(a, r)) == Mangled(SecretKey(b, q))
    requires forall i | 0 <= i < |b| :: LowerAlnum(b[i]) || b[i] == '-'
    ensures b[|a|] == '-' && (|a| + 1 < |b| ==> b[|a| + 1] == '-')
  {
    var left, right := SecretKey(a, r), SecretKey(b, q);
    assert left[|a|] == '_' && left[|a| + 1] == '_';
    assert right[|a|] == b[|a|];
    assert Mangled(left)[|a|] == '_' && Mangled(right)[|a|] == MangledChar(b[|a|]);
    assert |a| + 1 < |b| ==> right[|a| + 1] == b[|a| + 1];
    assert Mangled(left)[|a| + 1] == '_';
    assert |a| + 1 < |b| ==> Mangled(right)[|a| + 1] == MangledChar(b[|a| + 1]);
  }

  lemma NotLonger(a: string, r: string, b: string, q: string)
    requires PlainName(b) && Mangled(SecretKey(a, r)) == Mangled(SecretKey(b, q))
    ensures |a| >= |b|
  {
    if |a| < |b| {
      LongerNameHasHyphens(a, r, b, q);
    }
  }

  lemma SameCharWhenMangled(c: char, d: char)
    requires (LowerAlnum(c) || c == '-') && (LowerAlnum(d) || d == '-')
    requires MangledChar(c) == MangledChar(d)
    ensures c == d
  {
    UpperLetter(c);
    UpperLetter(d);
  }

  lemma UpperLetter(c: char)
    ensures 'a' <= c <= 'z' ==> Upper(c) as int == c as int - 32
    ensures !('a' <= c <= 'z') ==> Upper(c) == c
  {
  }

  lemma SameWhenMangled(a: string, b: string)
    requires Mangled(a) == Mangled(b)
    requires forall i | 0 <= i < |a| :: LowerAlnum(a[i]) || a[i] == '-'
    requires forall i | 0 <= i < |b| :: LowerAlnum(b[i]) || b[i] == '-'
    ensures a == b
  {
    assert |Mangled(a)| == |a| && |Mangled(b)| == |b|;
    forall i | 0 <= i < |a| ensures a[i] == b[i] {
      assert Mangled(a)[i] == MangledChar(a[i]) && Mangled(b)[i] == MangledChar(b[i]);
      SameCharWhenMangled(a[i], b[i]);
    }
  }

  /** Valid names have one variable exactly when they are the same agent and route. */
  lemma SecretVariablesSeparate(a: string, r: string, b: string, q: string)
    requires PlainName(a) && PlainName(b) && Routes.ValidRouteName(r) && Routes.ValidRouteName(q)
    ensures SecretVariable(a, r) == SecretVariable(b, q) <==> a == b && r == q
  {
    if SecretVariable(a, r) == SecretVariable(b, q) {
      var left, right := SecretKey(a, r), SecretKey(b, q);
      PrefixCancels("WEBHOOK_SECRET_", Mangled(left), Mangled(right));
      NotLonger(a, r, b, q);
      NotLonger(b, q, a, r);
      RouteLetters(r);
      RouteLetters(q);
      MangledPart(left, right, 0, |a|);
      MangledPart(left, right, |a| + 2, |left|);
      assert left[0..|a|] == a && right[0..|a|] == b;
      assert left[|a| + 2..|left|] == r && right[|a| + 2..|left|] == q;
      SameWhenMangled(a, b);
      SameWhenMangled(r, q);
    }
  }

  lemma RouteLetters(r: string)
    requires Routes.ValidRouteName(r)
    ensures forall i | 0 <= i < |r| :: LowerAlnum(r[i]) || r[i] == '-'
  {
    forall i | 0 <= i < |r| ensures LowerAlnum(r[i]) || r[i] == '-' {
      assert Routes.NameChar(r[i]);
    }
  }

  lemma MangledPart(s: string, t: string, from: nat, to: nat)
    requires Mangled(s) == Mangled(t) && from <= to <= |s|
    ensures |t| == |s| && Mangled(s[from..to]) == Mangled(t[from..to])
  {
    assert |Mangled(s)| == |s| && |Mangled(t)| == |t|;
    var l, r := Mangled(s[from..to]), Mangled(t[from..to]);
    forall i | 0 <= i < to - from ensures l[i] == r[i] {
      assert Mangled(s)[from + i] == Mangled(t)[from + i];
    }
  }

  /** The agent has a webhook route of that name. */
  predicate HasRoute(agent: Tree, route: string)
    requires agent.Map?
  {
    HasMap(agent.entries, "webhooks") && route in Entries(agent.entries["webhooks"].entries, "routes")
  }

  /**
   In values that pass, no two webhook routes share a signing secret: the installer's variable
   determines the agent and the route, though it joins them and folds case and hyphens.
   */
  lemma SecretsAreUnique(defaults: Object, machine: Object, i: nat, r: string, j: nat, q: string)
    requires CrossFieldHolds(defaults, machine) && i < |Agents(machine)| && j < |Agents(machine)|
    requires Agents(machine)[i].Map? && Agents(machine)[j].Map?
    requires HasRoute(MergedAgent(AgentDefaults(defaults, machine), Agents(machine)[i].entries), r)
    requires HasRoute(MergedAgent(AgentDefaults(defaults, machine), Agents(machine)[j].entries), q)
    ensures var a, b := NameOf(Agents(machine)[i].entries), NameOf(Agents(machine)[j].entries);
      a.Str? && b.Str? && (SecretVariable(a.text, r) == SecretVariable(b.text, q) <==> i == j && r == q)
  {
    var a, b := NameOf(Agents(machine)[i].entries), NameOf(Agents(machine)[j].entries);
    RoutedNameIsPlain(defaults, machine, i, r);
    RoutedNameIsPlain(defaults, machine, j, q);
    SecretVariablesSeparate(a.text, r, b.text, q);
    assert i < j ==> a != b;
    assert j < i ==> a != b;
  }

  lemma RoutedNameIsPlain(defaults: Object, machine: Object, i: nat, r: string)
    requires CrossFieldHolds(defaults, machine) && i < |Agents(machine)| && Agents(machine)[i].Map?
    requires HasRoute(MergedAgent(AgentDefaults(defaults, machine), Agents(machine)[i].entries), r)
    ensures NameHolds(Agents(machine)[i].entries) && PlainName(NameOf(Agents(machine)[i].entries).text)
    ensures Routes.ValidRouteName(r)
  {
    var configured := Agents(machine)[i].entries;
    var agent := MergedAgent(AgentDefaults(defaults, machine), configured);
    assert AgentHolds(MergeObjects(defaults, machine), AgentDefaults(defaults, machine), configured);
    var routes := Entries(agent.entries["webhooks"].entries, "routes");
    assert RouteHolds(r, routes[r]);
  }

  /** The variable is one that a shell accepts: capital letters, digits and underscores, after the fixed prefix. */
  lemma VariableIsShellName(agent: string, route: string)
    requires PlainName(agent) && Routes.ValidRouteName(route)
    ensures var variable := SecretVariable(agent, route);
      && "WEBHOOK_SECRET_" <= variable && |variable| == 15 + |agent| + 2 + |route|
      && forall i | 0 <= i < |variable| :: variable[i] == '_' || 'A' <= variable[i] <= 'Z' || '0' <= variable[i] <= '9'
  {
    var key, variable := SecretKey(agent, route), SecretVariable(agent, route);
    var prefix := "WEBHOOK_SECRET_";
    RouteLetters(route);
    forall i | 0 <= i < |key| ensures LowerAlnum(key[i]) || key[i] == '-' || key[i] == '_' {
    }
    PrefixIsPlain(prefix);
    forall i | 0 <= i < |variable|
      ensures variable[i] == '_' || 'A' <= variable[i] <= 'Z' || '0' <= variable[i] <= '9'
    {
      if i >= 15 {
        assert variable[i] == MangledChar(key[i - 15]);
      } else {
        assert variable[i] == prefix[i];
      }
    }
  }

  lemma PrefixIsPlain(prefix: string)
    requires prefix == "WEBHOOK_SECRET_"
    ensures |prefix| == 15 && forall i | 0 <= i < 15 :: prefix[i] == '_' || 'A' <= prefix[i] <= 'Z'
  {
  }
}
