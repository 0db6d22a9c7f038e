/** Which request headers the webhook listener forwards to the agent. */
module Headers {
  import opened Prelude

  type HeaderMap = map<string, seq<string>>

  const HOP_BY_HOP: seq<string> := [
    "Connection", "Proxy-Connection", "Keep-Alive", "Proxy-Authenticate", "Proxy-Authorization",
    "Te", "Trailer", "Transfer-Encoding", "Upgrade"
  ]

  /** The characters of a token, section 5.6.2 of RFC 9110. */
  predicate TokenChar(c: char) {
    || IsDigit(c) || 'a' <= c <= 'z' || 'A' <= c <= 'Z'
    || c == '!' || '#' <= c <= '\'' || c == '*' || c == '+' || c == '-' || c == '.'
    || '^' <= c <= '`' || c == '|' || c == '~'
  }

  predicate IsToken(name: string) {
    forall i | 0 <= i < |name| :: TokenChar(name[i])
  }

  function Capitalized(name: string, start: bool): string {
    if name == "" then "" else
    [if start then Upper(name[0]) else Lower(name[0])] + Capitalized(name[1..], name[0] == '-')
  }

  /** The canonical spelling the header map is keyed by; a name that is no token is left alone. */
  function Canonical(name: string): string {
    if IsToken(name) then Capitalized(name, true) else name
  }

  /** Two tokens have one canonical spelling exactly when they differ in letter case only. */
  lemma CanonicalIgnoresCase(a: string, b: string)
    requires IsToken(a) && IsToken(b)
    ensures Canonical(a) == Canonical(b) <==> ToLower(a) == ToLower(b)
  {
    CapitalizedIgnoresCase(a, b, true);
  }

  lemma {:induction false} CapitalizedIgnoresCase(a: string, b: string, start: bool)
    ensures Capitalized(a, start) == Capitalized(b, start) <==> ToLower(a) == ToLower(b)
    decreases |a|
  {
    if a != "" && b != "" {
      var ca, cb := Capitalized(a, start), Capitalized(b, start);
      assert ca[1..] == Capitalized(a[1..], a[0] == '-') && cb[1..] == Capitalized(b[1..], b[0] == '-');
      assert ca == [ca[0]] + ca[1..] && cb == [cb[0]] + cb[1..];
      assert ToLower(a)[1..] == ToLower(a[1..]) && ToLower(b)[1..] == ToLower(b[1..]);
      assert ToLower(a) == [Lower(a[0])] + ToLower(a)[1..] && ToLower(b) == [Lower(b[0])] + ToLower(b)[1..];
      if a[0] == '-' <==> b[0] == '-' {
        CapitalizedIgnoresCase(a[1..], b[1..], a[0] == '-');
      }
    }
  }

  predicate IsSpace(c: char) {
    c == ' ' || '\t' <= c <= '\r' || c == '\U{85}' || c == '\U{A0}'
  }

  function TrimSpace(s: string): string
    decreases |s|
  {
    if s == "" then ""
    else if IsSpace(s[0]) then TrimSpace(s[1..])
    else if IsSpace(s[|s| - 1]) then TrimSpace(s[..|s| - 1])
    else s
  }

  predicate IsCredential(name: string) {
    var lower := ToLower(name);
    || lower == "authorization"
    || "cf-access-" <= lower
    || Contains(lower, "signature")
    || Contains(lower, "token")
  }

  class Header {
    var fields: HeaderMap

    constructor ()
      ensures fields == map[]
    {
      fields := map[];
    }

    method Add(name: string, value: string)
      modifies this
      ensures fields == Added(old(fields), name, value)
    {
      var key := Canonical(name);
      fields := fields[key := (if key in fields then fields[key] else []) + [value]];
    }

    method Del(name: string)
      modifies this
      ensures fields == old(fields) - {Canonical(name)}
    {
      fields := fields - {Canonical(name)};
    }

    function Get(name: string): string
      reads this
    {
      FirstValue(fields, name)
    }
  }

  function Added(fields: HeaderMap, name: string, value: string): HeaderMap {
    var key := Canonical(name);
    fields[key := (if key in fields then fields[key] else []) + [value]]
  }

  function FirstValue(fields: HeaderMap, name: string): string {
    var key := Canonical(name);
    if key in fields && fields[key] != [] then fields[key][0] else ""
  }

  /** What the server's request parser delivers: canonically spelled tokens with at least one value each. */
  predicate Parsed(fields: HeaderMap) {
    forall k | k in fields :: k != "" && IsToken(k) && Canonical(k) == k && fields[k] != []
  }

  method CopyHeaders(destination: Header, source: HeaderMap)
    requires Parsed(source) && destination.fields == map[]
    modifies destination
    ensures destination.fields == source
  {
    var unvisited := source.Keys;
    while unvisited != {}
      invariant unvisited <= source.Keys
      invariant destination.fields == Copied(source, source.Keys - unvisited)
      decreases |unvisited|
    {
      var key :| key in unvisited;
      CopyOneMore(source, source.Keys - unvisited, key);
      assert source.Keys - (unvisited - {key}) == source.Keys - unvisited + {key};
      unvisited := unvisited - {key};
      CopyValues(destination, key, source[key]);
    }
    assert source.Keys - {} == source.Keys && Copied(source, source.Keys) == source;
  }

  function Copied(source: HeaderMap, names: set<string>): HeaderMap {
    map k | k in source && k in names :: source[k]
  }

  lemma CopyOneMore(source: HeaderMap, names: set<string>, name: string)
    requires name in source
    ensures Copied(source, names + {name}) == Copied(source, names)[name := source[name]]
  {
  }

  method CopyValues(destination: Header, name: string, values: seq<string>)
    requires Canonical(name) == name && name !in destination.fields && values != []
    modifies destination
    ensures destination.fields == old(destination.fields)[name := values]
  {
    for i := 0 to |values|
      invariant destination.fields == if i == 0 then old(destination.fields)
        else old(destination.fields)[name := values[..i]]
    {
      destination.Add(name, values[i]);
      assert values[..i] + [values[i]] == values[..i + 1];
    }
    assert values[..|values|] == values;
  }

  /** The canonical names `list` nominates, one per comma-separated part. */
  ghost function Nominations(list: string): set<string> {
    set part | part in Split(list, ',') :: Canonical(TrimSpace(part))
  }

  ghost function HopByHopNames(): set<string> {
    set h | h in HOP_BY_HOP :: Canonical(h)
  }

  ghost function WithoutHopByHop(fields: HeaderMap): HeaderMap {
    fields - Nominations(FirstValue(fields, "Connection")) - HopByHopNames()
  }

  function WithoutCredentials(fields: HeaderMap): HeaderMap {
    map k | k in fields && !IsCredential(k) :: fields[k]
  }

  method RemoveHopByHopHeaders(headers: Header)
    modifies headers
    ensures headers.fields == WithoutHopByHop(old(headers.fields))
  {
    var parts := Split(headers.Get("Connection"), ',');
    var tokens := seq(|parts|, i requires 0 <= i < |parts| => TrimSpace(parts[i]));
    DeleteEach(headers, tokens);
    assert (set n | n in tokens :: Canonical(n)) == Nominations(FirstValue(old(headers.fields), "Connection")) by {
      forall part | part in parts ensures TrimSpace(part) in tokens {
        var i :| 0 <= i < |parts| && parts[i] == part;
        assert tokens[i] == TrimSpace(part);
      }
    }
    DeleteEach(headers, HOP_BY_HOP);
  }

  method DeleteEach(headers: Header, names: seq<string>)
    modifies headers
    ensures headers.fields == old(headers.fields) - set n | n in names :: Canonical(n)
  {
    for i := 0 to |names|
      invariant headers.fields == old(headers.fields) - set n | n in names[..i] :: Canonical(n)
    {
      headers.Del(names[i]);
      assert names[..i + 1] == names[..i] + [names[i]];
      assert (set n | n in names[..i + 1] :: Canonical(n)) ==
        (set n | n in names[..i] :: Canonical(n)) + {Canonical(names[i])};
    }
    assert names[..|names|] == names;
  }

  /** The headers when those in `unvisited` have not been looked at yet. */
  function PartlyStripped(fields: HeaderMap, unvisited: set<string>): HeaderMap {
    map k | k in fields && (k in unvisited || !IsCredential(k)) :: fields[k]
  }

  lemma StripOneMore(fields: HeaderMap, unvisited: set<string>, name: string)
    requires name in unvisited
    ensures PartlyStripped(fields, unvisited - {name}) ==
      if IsCredential(name) then PartlyStripped(fields, unvisited) - {name} else PartlyStripped(fields, unvisited)
  {
  }

  method StripCredentialHeaders(headers: Header)
    requires Parsed(headers.fields)
    modifies headers
    ensures headers.fields == WithoutCredentials(old(headers.fields))
  {
    var unvisited := headers.fields.Keys;
    while unvisited != {}
      invariant unvisited <= headers.fields.Keys <= old(headers.fields.Keys)
      invariant headers.fields == PartlyStripped(old(headers.fields), unvisited)
      decreases |unvisited|
    {
      var name :| name in unvisited;
      StripOneMore(old(headers.fields), unvisited, name);
      unvisited := unvisited - {name};
      if IsCredential(name) {
        assert name in old(headers.fields);
        headers.Del(name);
      }
    }
  }

  /** Some comma-separated part of `list` is `name`, up to letter case. */
  ghost predicate Nominates(list: string, name: string) {
    exists part | part in Split(list, ',') :: ToLower(TrimSpace(part)) == ToLower(name)
  }

  predicate HasNoHopByHopName(name: string) {
    forall h | h in HOP_BY_HOP :: ToLower(h) != ToLower(name)
  }

  ghost predicate Survives(inbound: HeaderMap, name: string, lines: seq<string>) {
    && name in inbound
    && HasNoHopByHopName(name)
    && !IsCredential(name)
    && forall line | line in lines :: !Nominates(line, name)
  }

  function ConnectionLines(inbound: HeaderMap): seq<string> {
    var key := Canonical("Connection");
    if key in inbound then inbound[key] else []
  }

  /** `Header.Get` reads the first line only. */
  function HonouredLines(inbound: HeaderMap): seq<string> {
    ConnectionLines(inbound)[..if ConnectionLines(inbound) == [] then 0 else 1]
  }

  /** The inbound headers that survive the given Connection lines, all their values in order. */
  ghost function Surviving(inbound: HeaderMap, lines: seq<string>): HeaderMap {
    map k | k in inbound && Survives(inbound, k, lines) :: inbound[k]
  }

  /** The header work of `forward`, whatever order the maps are ranged over. */
  method OutboundHeaders(inbound: HeaderMap) returns (outbound: Header)
    requires Parsed(inbound)
    ensures fresh(outbound)
    ensures outbound.fields == Surviving(inbound, HonouredLines(inbound))
  {
    outbound := new Header();
    CopyHeaders(outbound, inbound);
    RemoveHopByHopHeaders(outbound);
    StripCredentialHeaders(outbound);
    OutboundIsSurviving(inbound);
  }

  lemma OutboundIsSurviving(inbound: HeaderMap)
    requires Parsed(inbound)
    ensures WithoutCredentials(WithoutHopByHop(inbound)) == Surviving(inbound, HonouredLines(inbound))
  {
    forall k | k in inbound
      ensures k in WithoutHopByHop(inbound) <==>
        HasNoHopByHopName(k) && forall line | line in HonouredLines(inbound) :: !Nominates(line, k)
    {
      HopByHopNamesIgnoreCase(k);
      NominationsHonoured(inbound, k);
    }
  }

  lemma HopByHopNamesIgnoreCase(k: string)
    requires IsToken(k) && Canonical(k) == k
    ensures k in HopByHopNames() <==> !HasNoHopByHopName(k)
  {
    forall h | h in HOP_BY_HOP ensures Canonical(h) == k <==> ToLower(h) == ToLower(k) {
      CanonicalMatches(k, h);
    }
  }

  lemma NominationsHonoured(inbound: HeaderMap, k: string)
    requires Parsed(inbound) && k in inbound
    ensures k in Nominations(FirstValue(inbound, "Connection")) <==>
      exists line | line in HonouredLines(inbound) :: Nominates(line, k)
  {
    var list := FirstValue(inbound, "Connection");
    if ConnectionLines(inbound) == [] {
      NominationsOfNothing();
    } else {
      assert HonouredLines(inbound) == [list];
      NominationsIgnoreCase(list, k);
    }
  }

  /** A canonically spelled token is the canonical form of exactly the names that differ from it in case only. */
  lemma CanonicalMatches(name: string, other: string)
    requires IsToken(name) && Canonical(name) == name
    ensures Canonical(other) == name <==> ToLower(other) == ToLower(name)
  {
    if ToLower(other) == ToLower(name) {
      TokenIgnoresCase(name, other);
    }
    if IsToken(other) {
      CanonicalIgnoresCase(other, name);
    }
  }

  lemma NominationsIgnoreCase(list: string, name: string)
    requires IsToken(name) && Canonical(name) == name
    ensures name in Nominations(list) <==> Nominates(list, name)
  {
    forall part | part in Split(list, ',')
      ensures Canonical(TrimSpace(part)) == name <==> ToLower(TrimSpace(part)) == ToLower(name)
    {
      CanonicalMatches(name, TrimSpace(part));
    }
  }

  lemma {:induction false} TokenIgnoresCase(a: string, b: string)
    requires IsToken(a) && ToLower(a) == ToLower(b)
    ensures IsToken(b)
  {
    forall i | 0 <= i < |b| ensures TokenChar(b[i]) {
      assert ToLower(a)[i] == Lower(a[i]) && ToLower(b)[i] == Lower(b[i]);
      assert TokenChar(a[i]);
    }
  }

  lemma NominationsOfNothing()
    ensures Nominations("") == {""}
  {
    assert Split("", ',') == [""];
    assert TrimSpace("") == "" && Canonical("") == "";
  }

  /**
   Section 7.6.1 of RFC 9110 lets every Connection line nominate headers. The outbound
   headers are the ones it asks for exactly when no line after the first nominates a
   header that the first line and the fixed rules let through.
   */
  lemma MeetsRfcExactly(inbound: HeaderMap)
    requires Parsed(inbound)
    ensures Surviving(inbound, HonouredLines(inbound)) == Surviving(inbound, ConnectionLines(inbound)) <==>
      forall i, k | 1 <= i < |ConnectionLines(inbound)| && k in inbound && Nominates(ConnectionLines(inbound)[i], k) ::
        !Survives(inbound, k, HonouredLines(inbound))
  {
    var first, lines := HonouredLines(inbound), ConnectionLines(inbound);
    forall k | k in inbound
      ensures Survives(inbound, k, lines) <==>
        Survives(inbound, k, first) && forall i | 1 <= i < |lines| :: !Nominates(lines[i], k)
    {
      if lines != [] {
        assert first[0] == lines[0] && first[0] in first;
        forall i | 0 <= i < |lines| ensures lines[i] in lines {
        }
      }
    }
    if Surviving(inbound, first) == Surviving(inbound, lines) {
      forall i, k | 1 <= i < |lines| && k in inbound && Nominates(lines[i], k)
        ensures !Survives(inbound, k, first)
      {
        assert k !in Surviving(inbound, lines);
      }
    }
  }

  lemma OneConnectionLine(inbound: HeaderMap)
    requires Parsed(inbound) && |ConnectionLines(inbound)| <= 1
    ensures Surviving(inbound, HonouredLines(inbound)) == Surviving(inbound, ConnectionLines(inbound))
  {
    MeetsRfcExactly(inbound);
  }

  /** The outbound headers keep what only a second Connection line nominates. */
  lemma SecondConnectionLineIsIgnored()
    ensures var inbound := map["Connection" := ["b", "a"], "A" := ["1"]];
      && Parsed(inbound)
      && "A" in Surviving(inbound, HonouredLines(inbound))
      && "A" !in Surviving(inbound, ConnectionLines(inbound))
  {
    var inbound: HeaderMap := map["Connection" := ["b", "a"], "A" := ["1"]];
    ConnectionIsCanonical();
    ShortNameSurvives();
    NominatesOne('a');
    NominatesOne('b');
    IgnoresTheSecond(inbound, "Connection", "A", "b", "a");
  }

  lemma IgnoresTheSecond(inbound: HeaderMap, connection: string, name: string, first: string, second: string)
    requires inbound == map[connection := [first, second], name := ["1"]]
    requires connection == Canonical("Connection") && name != connection
    requires connection != "" && Canonical(connection) == connection && IsToken(connection)
    requires name != "" && Canonical(name) == name && IsToken(name)
    requires HasNoHopByHopName(name) && !IsCredential(name) && Nominates(second, name) && !Nominates(first, name)
    ensures Parsed(inbound)
    ensures name in Surviving(inbound, HonouredLines(inbound)) && name !in Surviving(inbound, ConnectionLines(inbound))
  {
    var lines := ConnectionLines(inbound);
    assert lines == [first, second] && HonouredLines(inbound) == [first];
    assert lines[1] == second && second in lines;
    assert Survives(inbound, name, [first]) && !Survives(inbound, name, lines);
  }

  lemma ShortNameSurvives()
    ensures HasNoHopByHopName("A") && !IsCredential("A") && IsToken("A") && Canonical("A") == "A"
  {
    assert ToLower("A") == "a";
    assert "A"[1..] == "";
  }

  lemma NominatesOne(c: char)
    requires c == 'a' || c == 'b'
    ensures Nominates([c], "A") <==> c == 'a'
  {
    assert [c][1..] == "" && Split("", ',') == [""];
    assert [c] + "" == [c];
    assert Split([c], ',') == [[c]];
    assert TrimSpace([c]) == [c] && [c] in Split([c], ',');
  }

  predicate SmallLetters(s: string) {
    forall i | 0 <= i < |s| :: 'a' <= s[i] <= 'z'
  }

  lemma ConnectionIsCanonical()
    ensures Canonical("Connection") == "Connection" && IsToken("Connection")
  {
    WordIsCanonical('C', "onnection");
    assert ['C'] + "onnection" == "Connection";
  }

  lemma WordIsCanonical(initial: char, rest: string)
    requires 'A' <= initial <= 'Z' && SmallLetters(rest)
    ensures Canonical([initial] + rest) == [initial] + rest && IsToken([initial] + rest)
  {
    var word := [initial] + rest;
    assert word[0] == initial && word[1..] == rest;
    SmallLettersStay(rest);
  }

  lemma {:induction false} SmallLettersStay(s: string)
    requires SmallLetters(s)
    ensures Capitalized(s, false) == s
  {
    if s != "" {
      SmallLettersStay(s[1..]);
      assert [s[0]] + s[1..] == s;
    }
  }
}
