/** Configuration trees, their deep merge, and reading, writing and deleting along paths. */
module ConfigTree {
  import opened Prelude

  /** A parsed YAML, JSON or TOML value; `Other` is a scalar of any further type. */
  datatype Tree =
    | Map(entries: Object)
    | List(items: seq<Tree>)
    | Str(text: string)
    | Int(number: int)
    | Bool(flag: bool)
    | Null
    | Other(repr: string)

  type Object = map<string, Tree>
  type Path = seq<string>

  /** `base` recursively overlaid by `override`; lists and scalars replace. */
  function DeepMerge(base: Tree, override: Tree): Tree
    decreases override
  {
    if !base.Map? || !override.Map? then override else
    Map(map k | k in base.entries.Keys + override.entries.Keys ::
          if k !in override.entries then base.entries[k]
          else if k in base.entries then DeepMerge(base.entries[k], override.entries[k])
          else override.entries[k])
  }

  function MergeObjects(base: Object, override: Object): Object {
    DeepMerge(Map(base), Map(override)).entries
  }

  function GetOr(m: Object, key: string, default: Tree): Tree {
    if key in m then m[key] else default
  }

  predicate HasMap(m: Object, key: string) {
    key in m && m[key].Map?
  }

  /** The entries of a mapping-valued key, or none. */
  function Entries(desired: Object, collection: string): Object {
    if collection in desired && desired[collection].Map? then desired[collection].entries else map[]
  }

  /** A list or a mapping cannot be looked up in a dictionary; Python raises TypeError. */
  predicate Hashable(t: Tree) {
    !t.List? && !t.Map?
  }

  function GetPath(t: Tree, path: Path): Option<Tree> {
    if path == [] then Some(t)
    else if !t.Map? || path[0] !in t.entries then None
    else GetPath(t.entries[path[0]], path[1..])
  }

  function SetPath(m: Object, path: Path, value: Tree): Object
    requires path != []
    decreases |path|
  {
    if |path| == 1 then m[path[0] := value] else
    var child := if path[0] in m && m[path[0]].Map? then m[path[0]].entries else map[];
    m[path[0] := Map(SetPath(child, path[1..], value))]
  }

  function DeletePath(m: Object, path: Path): Object
    requires path != []
    decreases |path|
  {
    if |path| == 1 then m - {path[0]}
    else if path[0] in m && m[path[0]].Map? then
      m[path[0] := Map(DeletePath(m[path[0]].entries, path[1..]))]
    else m
  }

  function ReplacePath(m: Object, desired: Object, path: Path): Object
    requires path != []
  {
    match GetPath(Map(desired), path)
    case None => DeletePath(m, path)
    case Some(value) => SetPath(m, path, value)
  }

  /* How paths relate */

  predicate Comparable(p: Path, q: Path) {
    p <= q || q <= p
  }

  predicate NonMap(t: Option<Tree>) {
    t.Some? && !t.value.Map?
  }

  predicate MapAt(t: Tree, path: Path) {
    var r := GetPath(t, path);
    r.Some? && r.value.Map?
  }

  lemma {:induction false} GetConcat(t: Tree, p: Path, q: Path)
    ensures GetPath(t, p + q) == if GetPath(t, p).Some? then GetPath(GetPath(t, p).value, q) else None
    decreases |p|
  {
    if p == [] {
      assert p + q == q;
    } else if t.Map? && p[0] in t.entries {
      assert (p + q)[1..] == p[1..] + q;
      GetConcat(t.entries[p[0]], p[1..], q);
    }
  }

  lemma {:induction false} PathBelow(t: Tree, p: Path, q: Path)
    requires p < q && GetPath(t, q).Some?
    ensures MapAt(t, p)
  {
    GetConcat(t, p, q[|p|..]);
    assert p + q[|p|..] == q;
  }

  /* Lens laws */

  lemma {:induction false} GetSet(m: Object, p: Path, value: Tree, s: Path)
    requires p != []
    ensures GetPath(Map(SetPath(m, p, value)), p + s) == GetPath(value, s)
    decreases |p|
  {
    assert (p + s)[0] == p[0] && (p + s)[1..] == p[1..] + s;
    if |p| == 1 {
      assert p[1..] + s == s;
    } else {
      var child := if p[0] in m && m[p[0]].Map? then m[p[0]].entries else map[];
      GetSet(child, p[1..], value, s);
    }
  }

  lemma {:induction false} GetSetAbove(m: Object, p: Path, value: Tree, q: Path)
    requires p != [] && q < p
    ensures MapAt(Map(SetPath(m, p, value)), q)
  {
    GetSet(m, p, value, []);
    assert p + [] == p;
    PathBelow(Map(SetPath(m, p, value)), q, p);
  }

  lemma {:induction false} GetSetBeside(m: Object, p: Path, value: Tree, q: Path)
    requires p != [] && !Comparable(p, q)
    ensures GetPath(Map(SetPath(m, p, value)), q) == GetPath(Map(m), q)
    decreases |p|
  {
    assert q != [] by {
      assert q == [] ==> q <= p;
    }
    if q[0] == p[0] {
      TailComparable(p, q);
      var child := if p[0] in m && m[p[0]].Map? then m[p[0]].entries else map[];
      GetSetBeside(child, p[1..], value, q[1..]);
    }
  }

  lemma TailComparable(p: Path, q: Path)
    requires p != [] && q != [] && p[0] == q[0]
    ensures Comparable(p, q) <==> Comparable(p[1..], q[1..])
  {
    assert p == [p[0]] + p[1..] && q == [q[0]] + q[1..];
  }

  lemma {:induction false} GetDelete(m: Object, p: Path, s: Path)
    requires p != []
    ensures GetPath(Map(DeletePath(m, p)), p + s) == None
    decreases |p|
  {
    assert (p + s)[0] == p[0] && (p + s)[1..] == p[1..] + s;
    if |p| > 1 && p[0] in m && m[p[0]].Map? {
      GetDelete(m[p[0]].entries, p[1..], s);
    } else if |p| > 1 && p[0] in m {
      assert p[1..] + s != [];
    }
  }

  lemma {:induction false} GetDeleteBeside(m: Object, p: Path, q: Path)
    requires p != [] && !Comparable(p, q)
    ensures GetPath(Map(DeletePath(m, p)), q) == GetPath(Map(m), q)
    decreases |p|
  {
    assert q != [] by {
      assert q == [] ==> q <= p;
    }
    if q[0] == p[0] {
      TailComparable(p, q);
      if p[0] in m && m[p[0]].Map? {
        GetDeleteBeside(m[p[0]].entries, p[1..], q[1..]);
      }
    }
  }

  /** Deleting below a value keeps it a mapping, or leaves it untouched. */
  lemma {:induction false} GetDeleteAbove(m: Object, p: Path, q: Path)
    requires p != [] && q < p
    ensures MapAt(Map(DeletePath(m, p)), q) <==> MapAt(Map(m), q)
    ensures !MapAt(Map(m), q) ==> GetPath(Map(DeletePath(m, p)), q) == GetPath(Map(m), q)
    decreases |p|
  {
    if q != [] {
      assert q[0] == p[0];
      if p[0] in m && m[p[0]].Map? {
        assert q[1..] < p[1..];
        GetDeleteAbove(m[p[0]].entries, p[1..], q[1..]);
      }
    }
  }

  lemma {:induction false} SetWhatYouGet(m: Object, p: Path, value: Tree)
    requires p != [] && GetPath(Map(m), p) == Some(value)
    ensures SetPath(m, p, value) == m
    decreases |p|
  {
    if |p| == 1 {
      assert GetPath(m[p[0]], p[1..]) == Some(m[p[0]]);
    } else {
      assert p[1..] != [];
      SetWhatYouGet(m[p[0]].entries, p[1..], value);
    }
  }

  lemma {:induction false} DeleteWhatIsAbsent(m: Object, p: Path)
    requires p != [] && GetPath(Map(m), p) == None
    ensures DeletePath(m, p) == m
    decreases |p|
  {
    if |p| > 1 && p[0] in m && m[p[0]].Map? {
      DeleteWhatIsAbsent(m[p[0]].entries, p[1..]);
    }
  }

  /* What a merge reads as */

  ghost predicate Blocked(t: Tree, path: Path) {
    exists n | 0 <= n < |path| :: NonMap(GetPath(t, path[..n]))
  }

  /** A path reads as in the override where that has it, as in the base where nothing of the override is in the way. */
  lemma {:induction false} MergeReads(base: Tree, override: Tree, path: Path)
    ensures GetPath(override, path).None? && !Blocked(override, path) ==>
      GetPath(DeepMerge(base, override), path) == GetPath(base, path)
    ensures GetPath(override, path).None? && Blocked(override, path) ==>
      GetPath(DeepMerge(base, override), path) == None
    ensures GetPath(override, path).Some? ==>
      GetPath(DeepMerge(base, override), path) ==
      Some(if GetPath(base, path).Some? then DeepMerge(GetPath(base, path).value, GetPath(override, path).value)
           else GetPath(override, path).value)
    decreases |path|
  {
    if path != [] {
      assert path[..0] == [] && GetPath(override, []) == Some(override);
      if !override.Map? {
        assert NonMap(GetPath(override, path[..0]));
      } else {
        var k, rest := path[0], path[1..];
        if k in override.entries {
          BlockedTail(override, path);
          if base.Map? && k in base.entries {
            MergeReads(base.entries[k], override.entries[k], rest);
          }
        } else {
          AbsentIsOpen(override, path);
        }
      }
    }
  }

  lemma AbsentIsOpen(t: Tree, path: Path)
    requires path != [] && t.Map? && path[0] !in t.entries
    ensures !Blocked(t, path)
  {
    forall n | 0 <= n < |path| ensures !NonMap(GetPath(t, path[..n])) {
      assert n > 0 ==> path[..n][0] == path[0];
    }
  }

  lemma BlockedTail(t: Tree, path: Path)
    requires path != [] && t.Map? && path[0] in t.entries
    ensures Blocked(t, path) <==> Blocked(t.entries[path[0]], path[1..])
  {
    var child, rest := t.entries[path[0]], path[1..];
    if Blocked(t, path) {
      var n :| 0 <= n < |path| && NonMap(GetPath(t, path[..n]));
      assert n > 0 && path[..n][1..] == rest[..n - 1];
      assert NonMap(GetPath(child, rest[..n - 1]));
    }
    if Blocked(child, rest) {
      var n :| 0 <= n < |rest| && NonMap(GetPath(child, rest[..n]));
      assert path[..n + 1][1..] == rest[..n];
      assert NonMap(GetPath(t, path[..n + 1]));
    }
  }

  /* Merging again */

  /** `t` already has every entry of `base` that a merge would fill in. */
  predicate Covers(base: Tree, t: Tree) {
    base.Map? && t.Map? ==> forall k | k in base.entries :: k in t.entries && Covers(base.entries[k], t.entries[k])
  }

  lemma {:induction false} CoversMeansAbsorbed(base: Tree, t: Tree)
    ensures Covers(base, t) <==> DeepMerge(base, t) == t
    decreases t
  {
    if base.Map? && t.Map? {
      forall k | k in base.entries && k in t.entries
        ensures Covers(base.entries[k], t.entries[k]) <==> DeepMerge(base.entries[k], t.entries[k]) == t.entries[k]
      {
        CoversMeansAbsorbed(base.entries[k], t.entries[k]);
      }
      var m := DeepMerge(base, t);
      assert Covers(base, t) ==> m.entries == t.entries;
      if m == t {
        forall k | k in base.entries ensures k in t.entries && Covers(base.entries[k], t.entries[k]) {
          assert k in m.entries;
        }
      }
    }
  }

  lemma {:induction false} CoversItself(t: Tree)
    ensures Covers(t, t)
    decreases t
  {
    if t.Map? {
      forall k | k in t.entries ensures Covers(t.entries[k], t.entries[k]) {
        CoversItself(t.entries[k]);
      }
    }
  }

  lemma {:induction false} MergeCovers(base: Tree, override: Tree)
    ensures Covers(base, DeepMerge(base, override))
    decreases override
  {
    if base.Map? && override.Map? {
      forall k | k in base.entries ensures Covers(base.entries[k], DeepMerge(base, override).entries[k]) {
        if k in override.entries {
          MergeCovers(base.entries[k], override.entries[k]);
        } else {
          CoversItself(base.entries[k]);
        }
      }
    }
  }

  /** Covering, path by path: a path of `base` is missing in `t` only below something that is no mapping. */
  ghost predicate CoversPaths(base: Tree, t: Tree) {
    forall p, k :: GetPath(base, p + [k]).Some? && MapAt(t, p) ==> GetPath(t, p + [k]).Some?
  }

  lemma {:induction false} CoversAlong(base: Tree, t: Tree, p: Path)
    requires Covers(base, t) && GetPath(base, p).Some? && GetPath(t, p).Some?
    ensures Covers(GetPath(base, p).value, GetPath(t, p).value)
    decreases |p|
  {
    if p != [] {
      CoversAlong(base.entries[p[0]], t.entries[p[0]], p[1..]);
    }
  }

  lemma {:induction false} CoversMeansPaths(base: Tree, t: Tree)
    ensures Covers(base, t) <==> CoversPaths(base, t)
    decreases base
  {
    if Covers(base, t) {
      forall p, k | GetPath(base, p + [k]).Some? && MapAt(t, p) ensures GetPath(t, p + [k]).Some? {
        GetConcat(base, p, [k]);
        GetConcat(t, p, [k]);
        CoversAlong(base, t, p);
        GetOne(GetPath(base, p).value, k);
        GetOne(GetPath(t, p).value, k);
      }
    }
    if CoversPaths(base, t) && base.Map? && t.Map? {
      forall k | k in base.entries ensures k in t.entries && Covers(base.entries[k], t.entries[k]) {
        GetOne(base, k);
        GetOne(t, k);
        assert [] + [k] == [k] && MapAt(t, []);
        assert GetPath(t, [] + [k]).Some?;
        forall p, j | GetPath(base.entries[k], p + [j]).Some? && MapAt(t.entries[k], p)
          ensures GetPath(t.entries[k], p + [j]).Some?
        {
          var q := [k] + p;
          assert q + [j] == [k] + (p + [j]);
          GetConcat(base, [k], p + [j]);
          GetConcat(t, [k], p + [j]);
          GetConcat(t, [k], p);
          assert GetPath(base, q + [j]).Some? && MapAt(t, q);
        }
        CoversMeansPaths(base.entries[k], t.entries[k]);
      }
    }
  }

  lemma GetOne(t: Tree, k: string)
    ensures GetPath(t, [k]) == if t.Map? && k in t.entries then Some(t.entries[k]) else None
  {
    if t.Map? && k in t.entries {
      assert GetPath(t.entries[k], [k][1..]) == Some(t.entries[k]);
    }
  }
}
