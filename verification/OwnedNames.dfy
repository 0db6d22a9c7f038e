/** What each reconciler reads from the desired configuration alone, key by key. */
module OwnedNames {
  import opened ConfigTree
  import opened Reconcile
  import opened Harnesses
  import opened Hermes
  import opened HermesLaws

  /** `q` is a leaf `leaf`, or lies below one, of an entry of `collection` for which desired has that leaf. */
  predicate UnderLeaf(desired: Object, collection: string, leaf: string, q: Path) {
    |q| >= 3 && q[0] == collection && q[2] == leaf && GetPath(Map(desired), [collection, q[1], leaf]).Some?
  }

  /** `q` lies above such a leaf. */
  ghost predicate OverLeaf(desired: Object, collection: string, leaf: string, q: Path) {
    exists name :: q < [collection, name, leaf] && GetPath(Map(desired), [collection, name, leaf]).Some?
  }

  /** At this path the desired configuration decides alone, whatever its leaves. */
  predicate FixedDecided(kind: Kind, desired: Object, q: Path) {
    q != [] &&
    match kind
    case ClaudeSettings =>
      q[0] in {"env", "permissions", "sandbox", "enableAllProjectMcpServers", "skipDangerousModePermissionPrompt"}
    case ClaudeMarketplaces => q[0] in desired
    case ClaudePlugins => false
    case ClaudeState => q[0] == "mcpServers"
    case Codex =>
      || q[0] in {"model_provider", "model_providers", "mcp_servers", "web_search", "developer_instructions",
                  "sandbox_mode", "approval_policy"}
      || ["features", "respect_system_proxy"] <= q
    case OpenCode => q[0] in {"$schema", "provider", "mcp", "permission", "lsp"}
  }

  /** At this path the desired configuration decides alone. */
  predicate Decided(kind: Kind, desired: Object, q: Path) {
    || FixedDecided(kind, desired, q)
    || (kind.ClaudeState? && UnderLeaf(desired, "projects", "hasTrustDialogAccepted", q))
    || (kind.Codex? && UnderLeaf(desired, "projects", "trust_level", q))
  }

  /** This path leads to one at which the desired configuration decides alone. */
  ghost predicate Leads(kind: Kind, desired: Object, q: Path) {
    || q == []
    || (kind.ClaudeState? && OverLeaf(desired, "projects", "hasTrustDialogAccepted", q))
    || (kind.Codex? && (q == ["features"] || OverLeaf(desired, "projects", "trust_level", q)))
  }

  /* Owned paths below and above a path */

  ghost predicate Below(paths: seq<Path>, q: Path) {
    exists p :: p in paths && p <= q
  }

  ghost predicate Above(paths: seq<Path>, q: Path) {
    exists p :: p in paths && q < p
  }

  lemma BelowConcat(a: seq<Path>, b: seq<Path>, q: Path)
    ensures Below(a + b, q) <==> Below(a, q) || Below(b, q)
    ensures Above(a + b, q) <==> Above(a, q) || Above(b, q)
  {
    if p :| p in a + b && p <= q {
      assert p in a || p in b;
    }
    if p :| p in a && p <= q {
      assert p in a + b;
    }
    if p :| p in b && p <= q {
      assert p in a + b;
    }
    if p :| p in a + b && q < p {
      assert p in a || p in b;
    }
    if p :| p in a && q < p {
      assert p in a + b;
    }
    if p :| p in b && q < p {
      assert p in a + b;
    }
  }

  lemma Unrelated(paths: seq<Path>, q: Path)
    requires !Below(paths, q) && !Above(paths, q)
    ensures forall p | p in paths :: !Comparable(p, q)
  {
    forall p | p in paths ensures !Comparable(p, q) {
      assert q <= p ==> q == p || q < p;
    }
  }

  /* Single keys and leaves */

  lemma HeadIsListed(q: Path, p: Path)
    requires q != [] && p == [q[0]]
    ensures p <= q
  {
  }

  lemma {:induction false} LeafIsListed(desired: Object, collection: string, names: seq<string>, leaf: string,
      n: string)
    requires (forall m | m in names :: m in Entries(desired, collection)) && n in names
    requires Entries(desired, collection)[n].Map? && leaf in Entries(desired, collection)[n].entries
    ensures [collection, n, leaf] in LeafPaths(desired, collection, names, leaf)
    decreases |names|
  {
    var init, name := names[..|names| - 1], names[|names| - 1];
    if n != name {
      assert n in init;
      LeafIsListed(desired, collection, init, leaf, n);
    }
  }

  lemma {:induction false} ListedIsLeaf(desired: Object, collection: string, names: seq<string>, leaf: string, p: Path)
    requires (forall m | m in names :: m in Entries(desired, collection))
    requires p in LeafPaths(desired, collection, names, leaf)
    ensures |p| == 3 && p == [collection, p[1], leaf] && GetPath(Map(desired), p).Some?
    decreases |names|
  {
    if names != [] {
      var init, name := names[..|names| - 1], names[|names| - 1];
      if p in LeafPaths(desired, collection, init, leaf) {
        ListedIsLeaf(desired, collection, init, leaf, p);
      } else {
        assert p == [collection, name, leaf];
        LeafIsPresent(desired, collection, name, leaf);
      }
    }
  }

  lemma PresentLeaf(desired: Object, collection: string, name: string, leaf: string)
    requires GetPath(Map(desired), [collection, name, leaf]).Some?
    ensures name in Entries(desired, collection)
    ensures Entries(desired, collection)[name].Map? && leaf in Entries(desired, collection)[name].entries
  {
    assert [collection, name, leaf] == [collection] + [name, leaf] && [name, leaf] == [name] + [leaf];
    BelowTheHead(desired, collection, [name, leaf]);
    var entries := if desired[collection].Map? then desired[collection].entries else map[];
    BelowTheHead(entries, name, [leaf]);
    GetOne(entries[name], leaf);
  }

  /** The leaves that are owned, and the paths below and above them. */
  lemma LeavesMean(desired: Object, collection: string, names: seq<string>, leaf: string, q: Path)
    requires Lists(names, Entries(desired, collection))
    ensures var paths := LeafPaths(desired, collection, names, leaf);
      && (UnderLeaf(desired, collection, leaf, q) <==> Below(paths, q))
      && (Above(paths, q) ==> OverLeaf(desired, collection, leaf, q))
  {
    var paths := LeafPaths(desired, collection, names, leaf);
    if UnderLeaf(desired, collection, leaf, q) {
      PresentLeaf(desired, collection, q[1], leaf);
      LeafIsListed(desired, collection, names, leaf, q[1]);
      assert [collection, q[1], leaf] <= q;
    }
    forall p | p in paths
      ensures p <= q ==> UnderLeaf(desired, collection, leaf, q)
      ensures q < p ==> OverLeaf(desired, collection, leaf, q)
    {
      ListedIsLeaf(desired, collection, names, leaf, p);
      assert p <= q ==> q[0] == p[0] && q[1] == p[1] && q[2] == p[2];
    }
  }

  /* The six kinds */

  /** The fixed part of what a kind owns. */
  function FixedPaths(kind: Kind, desired: Object, names: seq<string>): seq<Path> {
    match kind
    case ClaudeSettings => SETTINGS_OWNED
    case ClaudeMarketplaces => seq(|names|, i requires 0 <= i < |names| => [names[i]])
    case ClaudePlugins => []
    case ClaudeState => STATE_OWNED
    case Codex => CODEX_OWNED
    case OpenCode => OPENCODE_OWNED
  }

  predicate Heads(paths: seq<Path>, keys: set<string>) {
    && (forall i | 0 <= i < |paths| :: |paths[i]| == 1 && paths[i][0] in keys)
    && forall k | k in keys :: [k] in paths
  }

  /** Where whole keys are owned, what counts is the first key of a path. */
  lemma HeadsMean(paths: seq<Path>, keys: set<string>, q: Path)
    requires Heads(paths, keys)
    ensures q != [] && q[0] in keys <==> Below(paths, q)
    ensures Above(paths, q) ==> q == []
  {
    if q != [] && q[0] in keys {
      assert [q[0]] in paths && [q[0]] <= q;
    }
  }

  lemma SettingsHeads()
    ensures Heads(SETTINGS_OWNED, {"env", "permissions", "sandbox", "enableAllProjectMcpServers",
                                   "skipDangerousModePermissionPrompt"})
  {
    assert SETTINGS_OWNED[0] == ["env"] && SETTINGS_OWNED[1] == ["permissions"] && SETTINGS_OWNED[2] == ["sandbox"];
    assert SETTINGS_OWNED[3] == ["enableAllProjectMcpServers"];
    assert SETTINGS_OWNED[4] == ["skipDangerousModePermissionPrompt"];
  }

  lemma OpenCodeHeads()
    ensures Heads(OPENCODE_OWNED, {"$schema", "provider", "mcp", "permission", "lsp"})
  {
    assert OPENCODE_OWNED[0] == ["$schema"] && OPENCODE_OWNED[1] == ["provider"] && OPENCODE_OWNED[2] == ["mcp"];
    assert OPENCODE_OWNED[3] == ["permission"] && OPENCODE_OWNED[4] == ["lsp"];
  }

  lemma CodexHeads()
    ensures Heads(CODEX_OWNED[..7], {"model_provider", "model_providers", "mcp_servers", "web_search",
                                     "developer_instructions", "sandbox_mode", "approval_policy"})
    ensures CODEX_OWNED == CODEX_OWNED[..7] + [["features", "respect_system_proxy"]]
  {
    var heads := CODEX_OWNED[..7];
    assert heads[0] == ["model_provider"] && heads[1] == ["model_providers"] && heads[2] == ["mcp_servers"];
    assert heads[3] == ["web_search"] && heads[4] == ["developer_instructions"] && heads[5] == ["sandbox_mode"];
    assert heads[6] == ["approval_policy"];
  }

  /** One owned key below another one. */
  lemma PairMeans(a: string, b: string, q: Path)
    ensures [a, b] <= q <==> |q| >= 2 && q[0] == a && q[1] == b
    ensures q < [a, b] ==> q == [] || q == [a]
  {
    assert q < [a, b] ==> |q| < 2 && q == [a, b][..|q|];
    assert [a, b][..1] == [a] && [a, b][..0] == [];
  }

  lemma OnePath(p: Path, q: Path)
    ensures Below([p], q) <==> p <= q
    ensures Above([p], q) <==> q < p
  {
    assert p in [p];
  }

  lemma CodexMeans(q: Path)
    ensures FixedDecided(Codex, map[], q) <==> Below(CODEX_OWNED, q)
    ensures Above(CODEX_OWNED, q) ==> q == [] || q == ["features"]
  {
    CodexHeads();
    HeadsMean(CODEX_OWNED[..7], {"model_provider", "model_providers", "mcp_servers", "web_search",
                                 "developer_instructions", "sandbox_mode", "approval_policy"}, q);
    PairMeans("features", "respect_system_proxy", q);
    OnePath(["features", "respect_system_proxy"], q);
    BelowConcat(CODEX_OWNED[..7], [["features", "respect_system_proxy"]], q);
  }

  lemma MarketplaceHeads(desired: Object, names: seq<string>)
    requires Lists(names, desired)
    ensures Heads(FixedPaths(ClaudeMarketplaces, desired, names), desired.Keys)
  {
    var paths := FixedPaths(ClaudeMarketplaces, desired, names);
    forall k | k in desired.Keys ensures [k] in paths {
      var i :| 0 <= i < |names| && names[i] == k;
      assert paths[i] == [k];
    }
  }

  lemma SettingsMean(desired: Object, q: Path)
    ensures FixedDecided(ClaudeSettings, desired, q) <==> Below(SETTINGS_OWNED, q)
    ensures Above(SETTINGS_OWNED, q) ==> q == []
  {
    SettingsHeads();
    HeadsMean(SETTINGS_OWNED, {"env", "permissions", "sandbox", "enableAllProjectMcpServers",
                               "skipDangerousModePermissionPrompt"}, q);
  }

  lemma StateMeans(desired: Object, q: Path)
    ensures FixedDecided(ClaudeState, desired, q) <==> Below(STATE_OWNED, q)
    ensures Above(STATE_OWNED, q) ==> q == []
  {
    assert STATE_OWNED[0] == ["mcpServers"];
    HeadsMean(STATE_OWNED, {"mcpServers"}, q);
  }

  lemma OpenCodeMeans(desired: Object, q: Path)
    ensures FixedDecided(OpenCode, desired, q) <==> Below(OPENCODE_OWNED, q)
    ensures Above(OPENCODE_OWNED, q) ==> q == []
  {
    OpenCodeHeads();
    HeadsMean(OPENCODE_OWNED, {"$schema", "provider", "mcp", "permission", "lsp"}, q);
  }

  /** The fixed part of what a kind owns, and the paths below and above it. */
  lemma FixedMeans(kind: Kind, desired: Object, names: seq<string>, q: Path)
    requires Lists(names, Walked(kind, desired))
    ensures FixedDecided(kind, desired, q) <==> Below(FixedPaths(kind, desired, names), q)
    ensures Above(FixedPaths(kind, desired, names), q) ==> q == [] || (kind.Codex? && q == ["features"])
  {
    match kind
    case ClaudeSettings => SettingsMean(desired, q);
    case ClaudeMarketplaces =>
      MarketplaceHeads(desired, names);
      HeadsMean(FixedPaths(kind, desired, names), desired.Keys, q);
    case ClaudePlugins =>
    case ClaudeState => StateMeans(desired, q);
    case Codex => CodexMeans(q);
    case OpenCode => OpenCodeMeans(desired, q);
  }

  lemma OwnedMeans(kind: Kind, desired: Object, names: seq<string>, q: Path)
    requires Lists(names, Walked(kind, desired))
    ensures Decided(kind, desired, q) <==> Below(OwnedPaths(kind, desired, names), q)
    ensures Above(OwnedPaths(kind, desired, names), q) ==> Leads(kind, desired, q)
  {
    var fixed, paths := FixedPaths(kind, desired, names), OwnedPaths(kind, desired, names);
    FixedMeans(kind, desired, names, q);
    if kind.ClaudeState? || kind.Codex? {
      var leaf := if kind.Codex? then "trust_level" else "hasTrustDialogAccepted";
      var leaves := LeafPaths(desired, "projects", names, leaf);
      LeavesMean(desired, "projects", names, leaf, q);
      assert paths == fixed + leaves;
      BelowConcat(fixed, leaves, q);
    } else {
      assert paths == fixed;
    }
  }

  /**
   The six kinds, by the names of their keys: where the desired configuration decides alone the result reads as
   desired, absent where that is; at every other path, unless it leads to such a one, as the merge reads.
   */
  lemma KindReads(kind: Kind, existing: Object, desired: Object, names: seq<string>, q: Path)
    requires Lists(names, Walked(kind, desired))
    ensures var result := Map(Reconciled(existing, desired, OwnedPaths(kind, desired, names)));
      && (Decided(kind, desired, q) ==> GetPath(result, q) == GetPath(Map(desired), q))
      && (!Decided(kind, desired, q) && !Leads(kind, desired, q) ==>
            GetPath(result, q) == GetPath(DeepMerge(Map(desired), Map(existing)), q))
  {
    OwnedMeans(kind, desired, names, q);
    if !Decided(kind, desired, q) && !Leads(kind, desired, q) {
      Unrelated(OwnedPaths(kind, desired, names), q);
    }
    OwnershipOfKind(kind, existing, desired, names, q);
    assert DeepMerge(Map(desired), Map(existing)) == Map(MergeObjects(desired, existing));
  }

  /* Hermes */

  /** Outside the four rebuilt sections, at this path the desired configuration decides alone. */
  predicate HermesDecided(q: Path) {
    && q != []
    && (|| q[0] in {"providers", "model_catalog", "model_aliases", "moa", "fallback_providers", "hooks",
                    "platform_toolsets", "kanban", "mcp_servers", "toolsets", "command_allowlist", "hooks_auto_accept",
                    "custom_providers", "plugins", "slack"}
        || ["platforms", "webhook"] <= q || ["approvals", "mode"] <= q)
  }

  lemma HermesParts()
    ensures HERMES_OWNED == HERMES_OWNED[..7] + [["platforms", "webhook"]] + HERMES_OWNED[8..12]
                            + [["approvals", "mode"]] + HERMES_OWNED[13..]
  {
  }

  lemma BelowFive(a: seq<Path>, x: Path, b: seq<Path>, y: Path, c: seq<Path>, q: Path)
    ensures Below(a + [x] + b + [y] + c, q) <==> Below(a, q) || x <= q || Below(b, q) || y <= q || Below(c, q)
    ensures Above(a + [x] + b + [y] + c, q) <==> Above(a, q) || q < x || Above(b, q) || q < y || Above(c, q)
  {
    BelowConcat(a + [x] + b + [y], c, q);
    BelowConcat(a + [x] + b, [y], q);
    BelowConcat(a + [x], b, q);
    BelowConcat(a, [x], q);
    OnePath(x, q);
    OnePath(y, q);
  }

  const FIRST_KEYS := {"providers", "model_catalog", "model_aliases", "moa", "fallback_providers", "hooks",
                       "platform_toolsets"}
  const SECOND_KEYS := {"kanban", "mcp_servers", "toolsets", "command_allowlist"}
  const THIRD_KEYS := {"hooks_auto_accept", "custom_providers", "plugins", "slack"}

  lemma FirstHeads(heads: seq<Path>)
    requires heads == HERMES_OWNED[..7]
    ensures Heads(heads, FIRST_KEYS)
  {
    assert heads[0] == ["providers"] && heads[1] == ["model_catalog"] && heads[2] == ["model_aliases"];
    assert heads[3] == ["moa"] && heads[4] == ["fallback_providers"] && heads[5] == ["hooks"];
    assert heads[6] == ["platform_toolsets"];
  }

  lemma SecondHeads(heads: seq<Path>)
    requires heads == HERMES_OWNED[8..12]
    ensures Heads(heads, SECOND_KEYS)
  {
    assert heads[0] == ["kanban"] && heads[1] == ["mcp_servers"] && heads[2] == ["toolsets"];
    assert heads[3] == ["command_allowlist"];
  }

  lemma ThirdHeads(heads: seq<Path>)
    requires heads == HERMES_OWNED[13..]
    ensures Heads(heads, THIRD_KEYS)
  {
    assert heads[0] == ["hooks_auto_accept"] && heads[1] == ["custom_providers"] && heads[2] == ["plugins"];
    assert heads[3] == ["slack"];
  }

  lemma FiveMean(a: seq<Path>, b: seq<Path>, c: seq<Path>, q: Path)
    requires Heads(a, FIRST_KEYS) && Heads(b, SECOND_KEYS) && Heads(c, THIRD_KEYS)
    ensures var all := a + [["platforms", "webhook"]] + b + [["approvals", "mode"]] + c;
      && (HermesDecided(q) <==> Below(all, q))
      && (Above(all, q) ==> q == [] || q == ["platforms"] || q == ["approvals"])
  {
    HeadsMean(a, FIRST_KEYS, q);
    HeadsMean(b, SECOND_KEYS, q);
    HeadsMean(c, THIRD_KEYS, q);
    BelowFive(a, ["platforms", "webhook"], b, ["approvals", "mode"], c, q);
    PairMeans("platforms", "webhook", q);
    PairMeans("approvals", "mode", q);
  }

  lemma HermesMeans(q: Path)
    ensures HermesDecided(q) <==> Below(HERMES_OWNED, q)
    ensures Above(HERMES_OWNED, q) ==> q == [] || q == ["platforms"] || q == ["approvals"]
  {
    var a, b, c := HERMES_OWNED[..7], HERMES_OWNED[8..12], HERMES_OWNED[13..];
    HermesParts();
    FirstHeads(a);
    SecondHeads(b);
    ThirdHeads(c);
    FiveMean(a, b, c, q);
  }

  /**
   Hermes, by the names of its keys: outside the four sections that are rebuilt, the result reads as desired where
   the desired configuration decides alone, and otherwise as the merge.
   */
  lemma HermesReads(existing: Object, desired: Object, show: Show, q: Path)
    requires HermesOf(existing, desired, show).Some?
    requires q != [] && q[0] !in {"agent", "model", "delegation", "auxiliary"}
    ensures var result := Map(HermesOf(existing, desired, show).value);
      && (HermesDecided(q) ==> GetPath(result, q) == GetPath(Map(desired), q))
      && (!HermesDecided(q) && q != ["platforms"] && q != ["approvals"] ==>
            GetPath(result, q) == GetPath(DeepMerge(Map(desired), Map(existing)), q))
  {
    var result := HermesOf(existing, desired, show).value;
    var merged := MergeObjects(desired, existing);
    HermesPathsNonEmpty();
    OutsideSections(existing, desired, show, q[0]);
    SameBelow(result, Reconciled(existing, desired, HERMES_OWNED), q);
    HermesMeans(q);
    assert DeepMerge(Map(desired), Map(existing)) == Map(merged);
    if HermesDecided(q) {
      var p :| p in HERMES_OWNED && p <= q;
      assert q == p + q[|p|..];
      ReadsOwned(merged, desired, HERMES_OWNED, p, q[|p|..]);
    } else if q != ["platforms"] && q != ["approvals"] {
      Unrelated(HERMES_OWNED, q);
      ReadsBeside(merged, desired, HERMES_OWNED, q);
    }
  }

  lemma SameBelow(a: Object, b: Object, q: Path)
    requires q != [] && SameAt(a, b, q[0])
    ensures GetPath(Map(a), q) == GetPath(Map(b), q)
  {
    assert q == [q[0]] + q[1..];
    BelowTheHead(a, q[0], q[1..]);
    BelowTheHead(b, q[0], q[1..]);
  }
}
