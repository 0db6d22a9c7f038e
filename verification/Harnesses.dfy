/** The reconcilers of the Claude, Codex and OpenCode configurations. */
module Harnesses {
  import opened Prelude
  import opened ConfigTree
  import opened Reconcile

  const SETTINGS_OWNED: seq<Path> := [
    ["env"], ["permissions"], ["sandbox"], ["enableAllProjectMcpServers"], ["skipDangerousModePermissionPrompt"]
  ]

  const STATE_OWNED: seq<Path> := [["mcpServers"]]

  const CODEX_OWNED: seq<Path> := [
    ["model_provider"], ["model_providers"], ["mcp_servers"], ["web_search"], ["developer_instructions"],
    ["sandbox_mode"], ["approval_policy"], ["features", "respect_system_proxy"]
  ]

  const OPENCODE_OWNED: seq<Path> := [["$schema"], ["provider"], ["mcp"], ["permission"], ["lsp"]]

  /** The configuration a reconciler rewrites step by step. */
  class Document {
    var root: Object

    constructor (root: Object)
      ensures this.root == root
    {
      this.root := root;
    }

    method Set(path: Path, value: Tree)
      requires path != []
      modifies this
      ensures root == SetPath(old(root), path, value)
    {
      root := SetPath(root, path, value);
    }

    method Delete(path: Path)
      requires path != []
      modifies this
      ensures root == DeletePath(old(root), path)
    {
      root := DeletePath(root, path);
    }

    method Replace(desired: Object, path: Path)
      requires path != []
      modifies this
      ensures root == ReplacePath(old(root), desired, path)
    {
      var value := GetPath(Map(desired), path);
      if value.None? {
        Delete(path);
      } else {
        Set(path, value.value);
      }
    }

    method ReplaceEach(desired: Object, paths: seq<Path>)
      requires forall i | 0 <= i < |paths| :: paths[i] != []
      modifies this
      ensures root == ReplaceAll(old(root), desired, paths)
    {
      for i := 0 to |paths|
        invariant root == ReplaceAll(old(root), desired, paths[..i])
      {
        Replace(desired, paths[i]);
        assert paths[..i + 1][..i] == paths[..i];
      }
      assert paths[..|paths|] == paths;
    }

    /** `names` lists the desired entries of the collection, in whatever order the mapping yields them. */
    method ForceLeaves(desired: Object, collection: string, names: seq<string>, leaf: string)
      requires Lists(names, Entries(desired, collection))
      modifies this
      ensures root == ReplaceAll(old(root), desired, LeafPaths(desired, collection, names, leaf))
    {
      for i := 0 to |names|
        invariant root == ReplaceAll(old(root), desired, LeafPaths(desired, collection, names[..i], leaf))
      {
        var settings := Entries(desired, collection)[names[i]];
        OneMoreLeaf(old(root), desired, collection, names, i, leaf);
        if settings.Map? && leaf in settings.entries {
          Set([collection, names[i], leaf], settings.entries[leaf]);
        }
      }
      assert names[..|names|] == names;
    }
  }

  ghost predicate Lists(names: seq<string>, entries: Object) {
    && (forall i, j | 0 <= i < j < |names| :: names[i] != names[j])
    && (forall n :: n in names <==> n in entries)
  }

  /** The leaf of every desired mapping entry that has it. */
  function LeafPaths(desired: Object, collection: string, names: seq<string>, leaf: string): (paths: seq<Path>)
    requires forall n | n in names :: n in Entries(desired, collection)
    ensures forall i | 0 <= i < |paths| :: paths[i] != []
  {
    if names == [] then [] else
    var init, name := names[..|names| - 1], names[|names| - 1];
    var settings := Entries(desired, collection)[name];
    LeafPaths(desired, collection, init, leaf)
    + if settings.Map? && leaf in settings.entries then [[collection, name, leaf]] else []
  }

  lemma LeafIsPresent(desired: Object, collection: string, name: string, leaf: string)
    requires name in Entries(desired, collection)
    requires var s := Entries(desired, collection)[name]; s.Map? && leaf in s.entries
    ensures GetPath(Map(desired), [collection, name, leaf]) == Some(Entries(desired, collection)[name].entries[leaf])
  {
    var s := Entries(desired, collection)[name];
    GetOne(s, leaf);
    GetConcat(desired[collection], [name], [leaf]);
    GetOne(desired[collection], name);
    assert [collection, name, leaf][1..] == [name] + [leaf];
  }

  lemma {:induction false} LeafPathsShape(desired: Object, collection: string, names: seq<string>, leaf: string, i: nat)
    requires forall n | n in names :: n in Entries(desired, collection)
    requires i < |LeafPaths(desired, collection, names, leaf)|
    ensures var p := LeafPaths(desired, collection, names, leaf)[i];
      |p| == 3 && p[0] == collection && p[1] in names && p[2] == leaf
    decreases |names|
  {
    var init := names[..|names| - 1];
    if i < |LeafPaths(desired, collection, init, leaf)| {
      LeafPathsShape(desired, collection, init, leaf, i);
    }
  }

  lemma {:induction false} LeafPathsSeparate(desired: Object, collection: string, names: seq<string>, leaf: string)
    requires forall n | n in names :: n in Entries(desired, collection)
    requires forall i, j | 0 <= i < j < |names| :: names[i] != names[j]
    ensures Separate(LeafPaths(desired, collection, names, leaf))
    decreases |names|
  {
    if names != [] {
      var init := names[..|names| - 1];
      LeafPathsSeparate(desired, collection, init, leaf);
      var paths := LeafPaths(desired, collection, names, leaf);
      forall i, j | 0 <= i < j < |paths| ensures !Comparable(paths[i], paths[j]) {
        LeafPathsShape(desired, collection, names, leaf, i);
        LeafPathsShape(desired, collection, names, leaf, j);
        LeafPathsShape(desired, collection, init, leaf, i);
      }
    }
  }

  lemma HeadsApart(p: Path, q: Path)
    requires p != [] && q != [] && p[0] != q[0]
    ensures !Comparable(p, q)
  {
  }

  ghost predicate DistinctHeads(paths: seq<Path>) {
    && (forall i | 0 <= i < |paths| :: paths[i] != [])
    && (forall i, j | 0 <= i < j < |paths| :: paths[i][0] != paths[j][0])
  }

  lemma DistinctHeadsSeparate(paths: seq<Path>)
    requires DistinctHeads(paths)
    ensures Separate(paths)
  {
    forall i, j | 0 <= i < j < |paths| ensures !Comparable(paths[i], paths[j]) {
      HeadsApart(paths[i], paths[j]);
    }
  }

  lemma SeparateConcat(a: seq<Path>, b: seq<Path>, head: string)
    requires Separate(a) && Separate(b)
    requires (forall i | 0 <= i < |a| :: a[i][0] != head) && (forall i | 0 <= i < |b| :: b[i][0] == head)
    ensures Separate(a + b)
  {
    var c := a + b;
    forall i, j | 0 <= i < j < |c| ensures !Comparable(c[i], c[j]) {
      if i < |a| && |a| <= j {
        assert c[i] == a[i] && c[j] == b[j - |a|];
        HeadsApart(c[i], c[j]);
      } else if |a| <= i {
        assert c[i] == b[i - |a|] && c[j] == b[j - |a|];
      }
    }
  }

  lemma ReplaceAllSnoc(m: Object, desired: Object, paths: seq<Path>, last: Path)
    requires last != [] && forall i | 0 <= i < |paths| :: paths[i] != []
    ensures ReplaceAll(m, desired, paths + [last]) == ReplacePath(ReplaceAll(m, desired, paths), desired, last)
  {
    assert (paths + [last])[..|paths|] == paths;
  }

  lemma {:induction false} ReplaceAllConcat(m: Object, desired: Object, a: seq<Path>, b: seq<Path>)
    requires forall i | 0 <= i < |a| :: a[i] != []
    requires forall i | 0 <= i < |b| :: b[i] != []
    ensures ReplaceAll(m, desired, a + b) == ReplaceAll(ReplaceAll(m, desired, a), desired, b)
    decreases |b|
  {
    if b == [] {
      assert a + b == a;
    } else {
      assert (a + b)[..|a + b| - 1] == a + b[..|b| - 1];
      ReplaceAllConcat(m, desired, a, b[..|b| - 1]);
    }
  }

  lemma OneMoreLeaf(m: Object, desired: Object, collection: string, names: seq<string>, i: nat, leaf: string)
    requires i < |names| && forall n | n in names :: n in Entries(desired, collection)
    ensures var before := ReplaceAll(m, desired, LeafPaths(desired, collection, names[..i], leaf));
      var settings := Entries(desired, collection)[names[i]];
      ReplaceAll(m, desired, LeafPaths(desired, collection, names[..i + 1], leaf)) ==
        if settings.Map? && leaf in settings.entries then
          SetPath(before, [collection, names[i], leaf], settings.entries[leaf])
        else before
  {
    var before := LeafPaths(desired, collection, names[..i], leaf);
    var settings := Entries(desired, collection)[names[i]];
    assert names[..i + 1][..i] == names[..i];
    if settings.Map? && leaf in settings.entries {
      LeafIsPresent(desired, collection, names[i], leaf);
      ReplaceAllSnoc(m, desired, before, [collection, names[i], leaf]);
    } else {
      assert before + [] == before;
    }
  }

  /* The harnesses */

  datatype Kind = ClaudeSettings | ClaudeMarketplaces | ClaudePlugins | ClaudeState | Codex | OpenCode

  /** The mapping whose entries the kind walks through. */
  function Walked(kind: Kind, desired: Object): Object {
    match kind
    case ClaudeMarketplaces => desired
    case ClaudeState => Entries(desired, "projects")
    case Codex => Entries(desired, "projects")
    case _ => map[]
  }

  /** Everything the kind owns, the walked entries in the order `names` gives them. */
  function OwnedPaths(kind: Kind, desired: Object, names: seq<string>): (paths: seq<Path>)
    requires forall n | n in names :: n in Walked(kind, desired)
    ensures forall i | 0 <= i < |paths| :: paths[i] != []
  {
    match kind
    case ClaudeSettings => SETTINGS_OWNED
    case ClaudeMarketplaces => seq(|names|, i requires 0 <= i < |names| => [names[i]])
    case ClaudePlugins => []
    case ClaudeState =>
      assert Walked(kind, desired) == Entries(desired, "projects");
      STATE_OWNED + LeafPaths(desired, "projects", names, "hasTrustDialogAccepted")
    case Codex =>
      assert Walked(kind, desired) == Entries(desired, "projects");
      CODEX_OWNED + LeafPaths(desired, "projects", names, "trust_level")
    case OpenCode => OPENCODE_OWNED
  }

  lemma OwnedPathsSeparate(kind: Kind, desired: Object, names: seq<string>)
    requires Lists(names, Walked(kind, desired))
    ensures Separate(OwnedPaths(kind, desired, names))
  {
    match kind
    case ClaudeSettings => DistinctHeadsSeparate(SETTINGS_OWNED);
    case ClaudeMarketplaces => DistinctHeadsSeparate(OwnedPaths(kind, desired, names));
    case ClaudePlugins =>
    case ClaudeState =>
      DistinctHeadsSeparate(STATE_OWNED);
      LeavesBeside(STATE_OWNED, desired, "projects", names, "hasTrustDialogAccepted");
    case Codex =>
      DistinctHeadsSeparate(CODEX_OWNED);
      LeavesBeside(CODEX_OWNED, desired, "projects", names, "trust_level");
    case OpenCode => DistinctHeadsSeparate(OPENCODE_OWNED);
  }

  lemma LeavesBeside(fixed: seq<Path>, desired: Object, collection: string, names: seq<string>, leaf: string)
    requires Separate(fixed) && Lists(names, Entries(desired, collection))
    requires forall i | 0 <= i < |fixed| :: fixed[i][0] != collection
    ensures Separate(fixed + LeafPaths(desired, collection, names, leaf))
  {
    var leaves := LeafPaths(desired, collection, names, leaf);
    LeafPathsSeparate(desired, collection, names, leaf);
    forall i | 0 <= i < |leaves| ensures leaves[i][0] == collection {
      LeafPathsShape(desired, collection, names, leaf, i);
    }
    SeparateConcat(fixed, leaves, collection);
  }

  method ReconcileClaudeSettings(existing: Object, desired: Object) returns (result: Document)
    ensures fresh(result) && result.root == Reconciled(existing, desired, OwnedPaths(ClaudeSettings, desired, []))
  {
    result := new Document(MergeObjects(desired, existing));
    result.ReplaceEach(desired, SETTINGS_OWNED);
  }

  method ReconcileClaudeMarketplaces(existing: Object, desired: Object, names: seq<string>) returns (result: Document)
    requires Lists(names, desired)
    ensures fresh(result) && result.root ==
      Reconciled(existing, desired, OwnedPaths(ClaudeMarketplaces, desired, names))
  {
    result := new Document(MergeObjects(desired, existing));
    result.ReplaceEach(desired, seq(|names|, i requires 0 <= i < |names| => [names[i]]));
  }

  method ReconcileClaudePlugins(existing: Object, desired: Object) returns (result: Document)
    ensures fresh(result) && result.root == Reconciled(existing, desired, OwnedPaths(ClaudePlugins, desired, []))
  {
    result := new Document(MergeObjects(desired, existing));
  }

  method ReconcileClaudeState(existing: Object, desired: Object, names: seq<string>) returns (result: Document)
    requires Lists(names, Entries(desired, "projects"))
    ensures fresh(result) && result.root == Reconciled(existing, desired, OwnedPaths(ClaudeState, desired, names))
  {
    result := new Document(MergeObjects(desired, existing));
    result.ReplaceEach(desired, STATE_OWNED);
    result.ForceLeaves(desired, "projects", names, "hasTrustDialogAccepted");
    ReplaceAllConcat(MergeObjects(desired, existing), desired, STATE_OWNED,
                     LeafPaths(desired, "projects", names, "hasTrustDialogAccepted"));
  }

  method ReconcileCodex(existing: Object, desired: Object, names: seq<string>) returns (result: Document)
    requires Lists(names, Entries(desired, "projects"))
    ensures fresh(result) && result.root == Reconciled(existing, desired, OwnedPaths(Codex, desired, names))
  {
    result := new Document(MergeObjects(desired, existing));
    result.ReplaceEach(desired, CODEX_OWNED);
    result.ForceLeaves(desired, "projects", names, "trust_level");
    ReplaceAllConcat(MergeObjects(desired, existing), desired, CODEX_OWNED,
                     LeafPaths(desired, "projects", names, "trust_level"));
  }

  method ReconcileOpenCode(existing: Object, desired: Object) returns (result: Document)
    ensures fresh(result) && result.root == Reconciled(existing, desired, OwnedPaths(OpenCode, desired, []))
  {
    result := new Document(MergeObjects(desired, existing));
    result.ReplaceEach(desired, OPENCODE_OWNED);
  }

  /** Each kind is idempotent exactly on the undisturbed inputs, and stable from the second pass on all. */
  lemma KindIdempotentExactly(kind: Kind, existing: Object, desired: Object, names: seq<string>)
    requires Lists(names, Walked(kind, desired))
    ensures var paths := OwnedPaths(kind, desired, names);
      var once := Reconciled(existing, desired, paths);
      var twice := Reconciled(once, desired, paths);
      && (twice == once <==> Undisturbed(existing, desired, paths))
      && Reconciled(twice, desired, paths) == twice
  {
    OwnedPathsSeparate(kind, desired, names);
    IdempotentExactly(existing, desired, OwnedPaths(kind, desired, names));
    StableFromTheSecondPass(existing, desired, OwnedPaths(kind, desired, names));
  }

  /** Kinds that own top-level keys only are idempotent on every input. */
  lemma FlatKindsAreIdempotent(kind: Kind, existing: Object, desired: Object, names: seq<string>)
    requires Lists(names, Walked(kind, desired)) && !kind.ClaudeState? && !kind.Codex?
    ensures var paths := OwnedPaths(kind, desired, names);
      var once := Reconciled(existing, desired, paths);
      Reconciled(once, desired, paths) == once
  {
    var paths := OwnedPaths(kind, desired, names);
    OwnedPathsSeparate(kind, desired, names);
    assert forall i | 0 <= i < |paths| :: |paths[i]| == 1;
    forall p | p in paths ensures !Blocked(Map(existing), p) {
      forall n | 0 <= n < |p| ensures !NonMap(GetPath(Map(existing), p[..n])) {
        assert p[..n] == [];
      }
    }
    IdempotentWhenOpen(existing, desired, paths);
  }

  /** In whatever order a kind walks through its entries, it owns its paths and leaves the rest to the merge. */
  lemma OwnershipOfKind(kind: Kind, existing: Object, desired: Object, names: seq<string>, q: Path)
    requires Lists(names, Walked(kind, desired))
    ensures var paths := OwnedPaths(kind, desired, names);
      && ((exists p :: p in paths && p <= q) ==>
            GetPath(Map(Reconciled(existing, desired, paths)), q) == GetPath(Map(desired), q))
      && ((forall p | p in paths :: !Comparable(p, q)) ==>
            GetPath(Map(Reconciled(existing, desired, paths)), q) == GetPath(Map(MergeObjects(desired, existing)), q))
  {
    OwnedPathsSeparate(kind, desired, names);
    var paths := OwnedPaths(kind, desired, names);
    OwnershipFrame(existing, desired, paths, q);
    if forall p | p in paths :: !Comparable(p, q) {
      ReadsBeside(MergeObjects(desired, existing), desired, paths, q);
    }
  }

  /** Where a key is all the desired configuration has, and one leaf below it is all that is owned there. */
  lemma OtherIsUnowned(desired: Object, paths: seq<Path>, key: string, owned: string, other: string)
    requires desired.Keys == {key} && owned != other
    requires forall q | q in paths :: q != [] && (q[0] == key ==> q == [key, owned])
    ensures !NearOwned(desired, paths, [key, other])
  {
    forall q | Present(desired, paths, q) ensures !Comparable(q, [key, other]) {
      BelowTheHead(desired, q[0], q[1..]);
      assert q == [q[0]] + q[1..];
      assert [key, owned][1] != [key, other][1];
    }
  }

  /** A scalar in place of Codex's `features` is rebuilt by the first pass and refilled by the second. */
  lemma CodexMayNeedTwoPasses()
    ensures var existing := map["features" := Int(0)];
      var desired := map["features" := Map(map["respect_system_proxy" := Bool(true), "other" := Bool(true)])];
      var once := Reconciled(existing, desired, OwnedPaths(Codex, desired, []));
      Reconciled(once, desired, OwnedPaths(Codex, desired, [])) != once
  {
    var existing: Object := map["features" := Int(0)];
    var features := Map(map["respect_system_proxy" := Bool(true), "other" := Bool(true)]);
    var desired: Object := map["features" := features];
    var paths := OwnedPaths(Codex, desired, []);
    assert paths == CODEX_OWNED;
    var p, t := ["features", "respect_system_proxy"], ["features", "other"];
    BelowTheHead(existing, "features", []);
    BelowTheHead(desired, "features", ["respect_system_proxy"]);
    BelowTheHead(desired, "features", ["other"]);
    GetOne(features, "respect_system_proxy");
    GetOne(features, "other");
    assert p == ["features"] + ["respect_system_proxy"] && t == ["features"] + ["other"];
    assert p == paths[7] && Present(desired, paths, p);
    assert p[..1] == ["features"] == t[..1];
    OtherIsUnowned(desired, paths, "features", "respect_system_proxy", "other");
    assert t == ["features", "other"];
    assert ["features"] + [] == ["features"];
    assert !Undisturbed(existing, desired, paths) by {
      assert NonMap(GetPath(Map(existing), p[..1])) && p[..1] <= t && GetPath(Map(desired), t).Some?;
    }
    assert Lists([], Walked(Codex, desired));
    KindIdempotentExactly(Codex, existing, desired, []);
  }

  lemma BelowTheHead(m: Object, k: string, rest: Path)
    ensures GetPath(Map(m), [k] + rest) == if k in m then GetPath(m[k], rest) else None
  {
    assert ([k] + rest)[1..] == rest;
  }
}
