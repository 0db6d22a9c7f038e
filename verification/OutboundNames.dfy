/** Which headers leave for the agent, stated name by name and without the filter's own vocabulary. */
module OutboundNames {
  import opened Prelude
  import opened Headers

  /* Names of headers */

  /** A header name consists of the characters that section 5.6.2 of RFC 9110 allows in a token. */
  lemma TokenCharacters(c: char)
    ensures TokenChar(c) <==>
      c in "!#$%&'*+-.^_`|~" || '0' <= c <= '9' || 'A' <= c <= 'Z' || 'a' <= c <= 'z'
  {
    var special := "!#$%&'*+-.^_`|~";
    assert special[0] == '!' && special[1] == '#' && special[2] == '$' && special[3] == '%' && special[4] == '&';
    assert special[5] == '\'' && special[6] == '*' && special[7] == '+' && special[8] == '-' && special[9] == '.';
    assert special[10] == '^' && special[11] == '_' && special[12] == '`' && special[13] == '|' && special[14] == '~';
    assert '#' <= c <= '\'' ==> c in {'#', '$', '%', '&', '\''};
    assert '^' <= c <= '`' ==> c in {'^', '_', '`'};
  }

  /* Lists of names */

  predicate EndsIn(a: string, sep: char) {
    a == "" || a[|a| - 1] == sep
  }

  predicate Begins(b: string, sep: char) {
    b == "" || b[0] == sep
  }

  /** `part` stands in `s` between two separators or ends of `s`. */
  ghost predicate PartAt(s: string, sep: char, a: string, part: string, b: string) {
    s == a + (part + b) && sep !in part && EndsIn(a, sep) && Begins(b, sep)
  }

  lemma PartGrows(s: string, sep: char, part: string, b: string)
    requires s != "" && s[0] != sep && PartAt(s[1..], sep, "", part, b)
    ensures PartAt(s, sep, "", [s[0]] + part, b)
  {
    assert s == [s[0]] + s[1..] && s[1..] == part + b;
    assert [s[0]] + (part + b) == ([s[0]] + part) + b;
  }

  lemma {:induction false} FirstIsAt(s: string, sep: char) returns (b: string)
    ensures PartAt(s, sep, "", Split(s, sep)[0], b)
  {
    if s == "" {
      b := "";
    } else if s[0] == sep {
      b := s;
    } else {
      b := FirstIsAt(s[1..], sep);
      PartGrows(s, sep, Split(s[1..], sep)[0], b);
    }
  }

  lemma {:induction false} AtIsFirst(s: string, sep: char, part: string, b: string)
    requires PartAt(s, sep, "", part, b)
    ensures Split(s, sep)[0] == part
    decreases |s|
  {
    assert s == part + b;
    if s != "" && s[0] != sep {
      assert part != "" && part[0] == s[0] && s[1..] == part[1..] + b;
      AtIsFirst(s[1..], sep, part[1..], b);
      assert part == [s[0]] + part[1..];
    }
  }

  lemma FirstPart(s: string, sep: char, part: string)
    ensures Split(s, sep)[0] == part <==> exists b :: PartAt(s, sep, "", part, b)
  {
    var first := FirstIsAt(s, sep);
    forall b | PartAt(s, sep, "", part, b) ensures Split(s, sep)[0] == part {
      AtIsFirst(s, sep, part, b);
    }
  }

  lemma {:induction false} LaterPart(s: string, sep: char, part: string)
    ensures part in Split(s, sep)[1..] <==> exists a, b :: a != "" && PartAt(s, sep, a, part, b)
  {
    if s != "" {
      var rest := s[1..];
      assert [s[0]] + rest == s;
      FirstPart(rest, sep, part);
      LaterPart(rest, sep, part);
      if part in Split(s, sep)[1..] {
        LaterOfRest(s, sep, part);
        if s[0] == sep && part == Split(rest, sep)[0] {
          PartAfterSeparator(s, sep, part);
        } else {
          PartFurtherOn(s, sep, part);
        }
      }
      forall a, b | a != "" && PartAt(s, sep, a, part, b) ensures part in Split(s, sep)[1..] {
        PartOfRest(s, sep, a, part, b);
        LaterOfRest(s, sep, part);
      }
    }
  }

  lemma PartOfRest(s: string, sep: char, a: string, part: string, b: string)
    requires a != "" && PartAt(s, sep, a, part, b)
    ensures a[0] == s[0] && PartAt(s[1..], sep, a[1..], part, b) && (a[1..] == "" ==> s[0] == sep)
  {
    assert s[1..] == a[1..] + (part + b);
    assert a[1..] != "" ==> a[1..][|a[1..]| - 1] == a[|a| - 1];
  }

  /** After the first character, a later part of the text is a part of the rest. */
  lemma LaterOfRest(s: string, sep: char, part: string)
    requires s != ""
    ensures part in Split(s, sep)[1..] <==>
      if s[0] == sep then part in Split(s[1..], sep) else part in Split(s[1..], sep)[1..]
    ensures part in Split(s[1..], sep) <==> part == Split(s[1..], sep)[0] || part in Split(s[1..], sep)[1..]
  {
    var parts := Split(s[1..], sep);
    assert parts == [parts[0]] + parts[1..];
    assert Split(s, sep)[1..] == if s[0] == sep then parts else parts[1..];
  }

  lemma PartAfterSeparator(s: string, sep: char, part: string)
    requires s != "" && s[0] == sep && exists b :: PartAt(s[1..], sep, "", part, b)
    ensures exists a, b :: a != "" && PartAt(s, sep, a, part, b)
  {
    var b :| PartAt(s[1..], sep, "", part, b);
    assert s == [s[0]] + (part + b);
    assert PartAt(s, sep, [s[0]], part, b);
  }

  lemma PartFurtherOn(s: string, sep: char, part: string)
    requires s != "" && exists a, b :: a != "" && PartAt(s[1..], sep, a, part, b)
    ensures exists a, b :: a != "" && PartAt(s, sep, a, part, b)
  {
    var a, b :| a != "" && PartAt(s[1..], sep, a, part, b);
    assert s == ([s[0]] + a) + (part + b);
    assert PartAt(s, sep, [s[0]] + a, part, b);
  }

  lemma PartsMean(s: string, sep: char, part: string)
    ensures part in Split(s, sep) <==> exists a, b :: PartAt(s, sep, a, part, b)
  {
    FirstPart(s, sep, part);
    LaterPart(s, sep, part);
    assert Split(s, sep) == [Split(s, sep)[0]] + Split(s, sep)[1..];
  }

  /* Surrounding white space */

  predicate IsBlank(c: char) {
    c in {' ', '\t', '\n', '\r', '\U{B}', '\U{C}', '\U{85}', '\U{A0}'}
  }

  predicate Blanks(s: string) {
    forall i | 0 <= i < |s| :: IsBlank(s[i])
  }

  ghost predicate Padded(s: string, before: string, t: string, after: string) {
    s == before + (t + after) && Blanks(before) && Blanks(after)
  }

  predicate Solid(t: string) {
    t != "" && forall i | 0 <= i < |t| :: !IsBlank(t[i])
  }

  lemma {:induction false} TrimmedIsInside(s: string) returns (before: string, after: string)
    ensures Padded(s, before, TrimSpace(s), after)
    decreases |s|
  {
    if s == "" {
      before, after := "", "";
    } else if IsSpace(s[0]) {
      before, after := TrimmedIsInside(s[1..]);
      before := [s[0]] + before;
      assert s == [s[0]] + s[1..];
    } else if IsSpace(s[|s| - 1]) {
      before, after := TrimmedIsInside(s[..|s| - 1]);
      after := after + [s[|s| - 1]];
      assert s == s[..|s| - 1] + [s[|s| - 1]];
    } else {
      before, after := "", "";
    }
  }

  lemma {:induction false} InsideIsTrimmed(s: string, before: string, t: string, after: string)
    requires Padded(s, before, t, after) && Solid(t)
    ensures TrimSpace(s) == t
    decreases |s|
  {
    if before != "" {
      assert s[0] == before[0] && s[1..] == before[1..] + (t + after);
      InsideIsTrimmed(s[1..], before[1..], t, after);
    } else if after != "" {
      var n := |after| - 1;
      assert s[0] == t[0] && s[|s| - 1] == after[n] && s[..|s| - 1] == before + (t + after[..n]);
      InsideIsTrimmed(s[..|s| - 1], before, t, after[..n]);
    } else {
      assert s == t;
    }
  }

  /* What a Connection line nominates */

  /** The list has an element that is `name` up to letter case, white space around it aside. */
  ghost predicate Named(list: string, name: string, a: string, before: string, t: string, after: string, b: string) {
    && list == a + ((before + (t + after)) + b) && EndsIn(a, ',') && Begins(b, ',')
    && Blanks(before) && Blanks(after) && ToLower(t) == ToLower(name)
  }

  lemma SpelledAlike(t: string, name: string)
    requires ToLower(t) == ToLower(name) && name != "" && IsToken(name)
    ensures Solid(t) && ',' !in t
  {
    assert |t| == |ToLower(t)| == |name|;
    forall i | 0 <= i < |t| ensures !IsBlank(t[i]) && t[i] != ',' {
      assert Lower(t[i]) == ToLower(t)[i] == ToLower(name)[i] == Lower(name[i]) && TokenChar(name[i]);
    }
  }

  lemma NominatedIsNamed(list: string, name: string)
    requires name != "" && IsToken(name) && Nominates(list, name)
    ensures exists a, before, t, after, b :: Named(list, name, a, before, t, after, b)
  {
    var part :| part in Split(list, ',') && ToLower(TrimSpace(part)) == ToLower(name);
    PartsMean(list, ',', part);
    var a, b :| PartAt(list, ',', a, part, b);
    var before, after := TrimmedIsInside(part);
    assert Named(list, name, a, before, TrimSpace(part), after, b);
  }

  lemma NamedIsNominated(list: string, name: string, a: string, before: string, t: string, after: string, b: string)
    requires name != "" && IsToken(name) && Named(list, name, a, before, t, after, b)
    ensures Nominates(list, name)
  {
    var part := before + (t + after);
    SpelledAlike(t, name);
    InsideIsTrimmed(part, before, t, after);
    assert ',' !in part;
    assert PartAt(list, ',', a, part, b);
    PartsMean(list, ',', part);
  }

  lemma NominatesExactly(list: string, name: string)
    requires name != "" && IsToken(name)
    ensures Nominates(list, name) <==> exists a, before, t, after, b :: Named(list, name, a, before, t, after, b)
  {
    if Nominates(list, name) {
      NominatedIsNamed(list, name);
    }
    forall a, before, t, after, b | Named(list, name, a, before, t, after, b) ensures Nominates(list, name) {
      NamedIsNominated(list, name, a, before, t, after, b);
    }
  }

  /* Which names leave */

  /** `part` stands somewhere in `s`. */
  ghost predicate Occurs(s: string, part: string) {
    exists a, b :: s == a + (part + b)
  }

  lemma ContainsMeans(s: string, part: string)
    ensures Contains(s, part) <==> Occurs(s, part)
  {
    forall i | 0 <= i <= |s| && OccursAt(s, part, i) ensures Occurs(s, part) {
      assert s == s[..i] + (part + s[i + |part|..]);
    }
    forall a, b | s == a + (part + b) ensures Contains(s, part) {
      assert s[|a|..|a| + |part|] == part;
      assert OccursAt(s, part, |a|);
    }
  }

  /** Names that concern one connection only. */
  function FixedNames(): set<string> {
    {"connection", "proxy-connection", "keep-alive", "proxy-authenticate", "proxy-authorization", "te", "trailer",
     "transfer-encoding", "upgrade"}
  }

  /** Names of the connection itself, and names that carry a proof of identity. */
  ghost predicate StaysBehind(lower: string) {
    || lower in FixedNames()
    || lower == "authorization" || "cf-access-" <= lower
    || Occurs(lower, "signature") || Occurs(lower, "token")
  }

  /** The first Connection line, if there is one, names the header. */
  ghost predicate Nominated(inbound: HeaderMap, name: string) {
    && "Connection" in inbound && inbound["Connection"] != []
    && exists a, before, t, after, b :: Named(inbound["Connection"][0], name, a, before, t, after, b)
  }

  lemma Spelled(s: string, lower: string)
    requires |s| == |lower| && forall i | 0 <= i < |s| :: Lower(s[i]) == lower[i]
    ensures ToLower(s) == lower
  {
  }

  /** The `i`-th name of the list, in lower case. */
  function Fixed(i: nat): string
    requires i < 9
  {
    ["connection", "proxy-connection", "keep-alive", "proxy-authenticate", "proxy-authorization", "te", "trailer",
     "transfer-encoding", "upgrade"][i]
  }

  lemma EarlyIsLower(i: nat, h: string, lower: string)
    requires i < 4 && h == HOP_BY_HOP[i] && lower == Fixed(i)
    ensures ToLower(h) == lower
  {
    Spelled(h, lower);
  }

  lemma LateIsLower(i: nat, h: string, lower: string)
    requires 4 <= i < 9 && h == HOP_BY_HOP[i] && lower == Fixed(i)
    ensures ToLower(h) == lower
  {
    Spelled(h, lower);
  }

  lemma FixedAreFixed(lower: string)
    ensures lower in FixedNames() <==> exists i | 0 <= i < 9 :: Fixed(i) == lower
  {
    assert Fixed(0) == "connection" && Fixed(1) == "proxy-connection" && Fixed(2) == "keep-alive";
    assert Fixed(3) == "proxy-authenticate" && Fixed(4) == "proxy-authorization" && Fixed(5) == "te";
    assert Fixed(6) == "trailer" && Fixed(7) == "transfer-encoding" && Fixed(8) == "upgrade";
  }

  lemma HopByHopNames(name: string)
    ensures HasNoHopByHopName(name) <==> ToLower(name) !in FixedNames()
  {
    forall i | 0 <= i < 9 ensures ToLower(HOP_BY_HOP[i]) == Fixed(i) {
      if i < 4 {
        EarlyIsLower(i, HOP_BY_HOP[i], Fixed(i));
      } else {
        LateIsLower(i, HOP_BY_HOP[i], Fixed(i));
      }
    }
    FixedAreFixed(ToLower(name));
    assert HasNoHopByHopName(name) <==> forall i | 0 <= i < 9 :: Fixed(i) != ToLower(name);
  }

  /**
   Header by header, whatever the spelling: one leaves for the agent, with all its values, exactly if it is no
   connection header, carries no proof of identity, and is not nominated by the first Connection line.
   */
  lemma OutboundExactly(inbound: HeaderMap, name: string)
    requires Parsed(inbound) && name in inbound
    ensures var outbound := Surviving(inbound, HonouredLines(inbound));
      && (name in outbound <==> !StaysBehind(ToLower(name)) && !Nominated(inbound, name))
      && (name in outbound ==> outbound[name] == inbound[name])
  {
    HopByHopNames(name);
    ContainsMeans(ToLower(name), "signature");
    ContainsMeans(ToLower(name), "token");
    ConnectionIsCanonical();
    var lines := HonouredLines(inbound);
    if "Connection" in inbound {
      assert lines == [inbound["Connection"][0]];
      NominatesExactly(inbound["Connection"][0], name);
    } else {
      assert lines == [];
    }
  }

  /**
   However they are spelled: no header that a provider's check reads its proof from ever leaves, and nothing that
   the edge mints to identify the caller.
   */
  lemma CredentialsStayBehind(inbound: HeaderMap, name: string)
    requires Parsed(inbound)
    requires ToLower(name) in {"x-pagerduty-signature", "x-hub-signature-256", "x-gitlab-token", "svix-signature",
                               "x-webhook-signature-v2", "authorization"}
      || "cf-access-" <= ToLower(name)
    ensures name !in Surviving(inbound, HonouredLines(inbound))
  {
    var lower := ToLower(name);
    ProofsOccur(lower);
    if name in inbound {
      OutboundExactly(inbound, name);
    }
  }

  lemma ProofsOccur(lower: string)
    ensures lower in {"x-pagerduty-signature", "x-hub-signature-256", "svix-signature", "x-webhook-signature-v2"} ==>
      Occurs(lower, "signature")
    ensures lower == "x-gitlab-token" ==> Occurs(lower, "token")
  {
    assert "x-pagerduty-signature" == "x-pagerduty-" + ("signature" + "");
    assert "x-hub-signature-256" == "x-hub-" + ("signature" + "-256");
    assert "svix-signature" == "svix-" + ("signature" + "");
    assert "x-webhook-signature-v2" == "x-webhook-" + ("signature" + "-v2");
    assert "x-gitlab-token" == "x-gitlab-" + ("token" + "");
  }

  /** Headers that identify a delivery without proving where it comes from. */
  predicate Telemetry(lower: string) {
    lower in {"svix-id", "svix-timestamp", "x-webhook-timestamp", "cf-ray", "content-type"}
  }

  lemma NoPrefix(p: string, s: string, i: nat)
    requires i < |p| && (i >= |s| || s[i] != p[i])
    ensures !(p <= s)
  {
  }

  lemma TelemetryIsNoAccessHeader(lower: string)
    requires Telemetry(lower)
    ensures !("cf-access-" <= lower) && lower !in FixedNames()
  {
    NoPrefix("cf-access-", lower, if lower == "cf-ray" then 3 else if lower == "content-type" then 1 else 0);
  }

  lemma TelemetryIsNoSignature(lower: string)
    requires Telemetry(lower)
    ensures !Occurs(lower, "signature")
  {
    assert "signature"[2] == 'g' && 'g' !in lower;
    LacksLetter(lower, "signature", 'g');
  }

  lemma TelemetryIsNoToken(lower: string)
    requires Telemetry(lower)
    ensures !Occurs(lower, "token")
  {
    assert "token"[2] == 'k' && "token"[4] == 'n';
    assert if lower == "x-webhook-timestamp" then 'n' !in lower else 'k' !in lower;
    LacksLetter(lower, "token", if lower == "x-webhook-timestamp" then 'n' else 'k');
  }

  /** Whatever else identifies a delivery goes with it, with all its values, unless a Connection line nominates it. */
  lemma TelemetryLeaves(inbound: HeaderMap, name: string)
    requires Parsed(inbound) && name in inbound && !Nominated(inbound, name)
    requires Telemetry(ToLower(name))
    ensures var outbound := Surviving(inbound, HonouredLines(inbound));
      name in outbound && outbound[name] == inbound[name]
  {
    TelemetryIsNoAccessHeader(ToLower(name));
    TelemetryIsNoSignature(ToLower(name));
    TelemetryIsNoToken(ToLower(name));
    OutboundExactly(inbound, name);
  }

  lemma LacksLetter(s: string, part: string, c: char)
    requires c in part
    ensures c !in s ==> !Occurs(s, part)
  {
    if c !in s {
      forall a, b ensures s != a + (part + b) {
        var i :| 0 <= i < |part| && part[i] == c;
        assert (a + (part + b))[|a| + i] == c;
      }
    }
  }
}
