/**
 Reconciling an existing configuration with the desired one: merge them, the
 existing values winning, then read every owned path from the desired one again.
 */
module Reconcile {
  import opened Prelude
  import opened ConfigTree

  /** Owned paths, none at or below another. */
  ghost predicate Separate(paths: seq<Path>) {
    && (forall i | 0 <= i < |paths| :: paths[i] != [])
    && (forall i, j | 0 <= i < j < |paths| :: !Comparable(paths[i], paths[j]))
  }

  function ReplaceAll(m: Object, desired: Object, paths: seq<Path>): Object
    requires forall i | 0 <= i < |paths| :: paths[i] != []
  {
    if paths == [] then m
    else ReplacePath(ReplaceAll(m, desired, paths[..|paths| - 1]), desired, paths[|paths| - 1])
  }

  function Reconciled(existing: Object, desired: Object, paths: seq<Path>): Object
    requires forall i | 0 <= i < |paths| :: paths[i] != []
  {
    ReplaceAll(MergeObjects(desired, existing), desired, paths)
  }

  ghost predicate Present(desired: Object, paths: seq<Path>, p: Path) {
    p in paths && GetPath(Map(desired), p).Some?
  }

  /** `t` is at, above or below an owned path that the desired configuration has. */
  ghost predicate NearOwned(desired: Object, paths: seq<Path>, t: Path) {
    exists p :: Present(desired, paths, p) && Comparable(p, t)
  }

  /* Reading the result */

  lemma ComparableShrinks(p: Path, q: Path, s: Path)
    ensures Comparable(p + s, q) ==> Comparable(p, q)
  {
    assert q <= p + s && |q| <= |p| ==> q <= p;
    assert q <= p + s && |p| <= |q| ==> p <= q;
    assert p + s <= q ==> p <= q;
  }

  lemma SeparatePrefix(paths: seq<Path>, last: Path)
    requires Separate(paths) && paths != [] && last == paths[|paths| - 1]
    ensures Separate(paths[..|paths| - 1])
    ensures forall p | p in paths[..|paths| - 1] :: !Comparable(p, last)
  {
  }

  /** At and below an owned path the result reads as the desired configuration, absent where that is. */
  lemma {:induction false} ReadsOwned(m: Object, desired: Object, paths: seq<Path>, p: Path, s: Path)
    requires Separate(paths) && p in paths
    ensures GetPath(Map(ReplaceAll(m, desired, paths)), p + s) == GetPath(Map(desired), p + s)
    decreases |paths|
  {
    var init, last := paths[..|paths| - 1], paths[|paths| - 1];
    SeparatePrefix(paths, last);
    var before := ReplaceAll(m, desired, init);
    if p == last {
      GetConcat(Map(desired), p, s);
      match GetPath(Map(desired), p)
      case None => GetDelete(before, p, s);
      case Some(value) => GetSet(before, p, value, s);
    } else {
      assert p in init;
      ReadsOwned(m, desired, init, p, s);
      ComparableShrinks(p, last, s);
      match GetPath(Map(desired), last)
      case None => GetDeleteBeside(before, last, p + s);
      case Some(value) => GetSetBeside(before, last, value, p + s);
    }
  }

  lemma {:induction false} ReadsAbove(m: Object, desired: Object, paths: seq<Path>, p: Path, q: Path)
    requires Separate(paths) && Present(desired, paths, p) && q < p
    ensures MapAt(Map(ReplaceAll(m, desired, paths)), q)
  {
    ReadsOwned(m, desired, paths, p, []);
    assert p + [] == p;
    PathBelow(Map(ReplaceAll(m, desired, paths)), q, p);
  }

  /** A path beside every owned one reads as before the replacements. */
  lemma {:induction false} ReadsBeside(m: Object, desired: Object, paths: seq<Path>, q: Path)
    requires Separate(paths) && forall p | p in paths :: !Comparable(p, q)
    ensures GetPath(Map(ReplaceAll(m, desired, paths)), q) == GetPath(Map(m), q)
    decreases |paths|
  {
    if paths != [] {
      var init, last := paths[..|paths| - 1], paths[|paths| - 1];
      SeparatePrefix(paths, last);
      ReadsBeside(m, desired, init, q);
      assert last in paths;
      var before := ReplaceAll(m, desired, init);
      match GetPath(Map(desired), last)
      case None => GetDeleteBeside(before, last, q);
      case Some(value) => GetSetBeside(before, last, value, q);
    }
  }

  /** A desired path beside every owned one that is present keeps its presence and its shape. */
  lemma {:induction false} ReadsShape(m: Object, desired: Object, paths: seq<Path>, q: Path)
    requires Separate(paths) && GetPath(Map(desired), q).Some? && !NearOwned(desired, paths, q)
    ensures GetPath(Map(ReplaceAll(m, desired, paths)), q).Some? <==> GetPath(Map(m), q).Some?
    ensures MapAt(Map(ReplaceAll(m, desired, paths)), q) <==> MapAt(Map(m), q)
    decreases |paths|
  {
    if paths != [] {
      var init, last := paths[..|paths| - 1], paths[|paths| - 1];
      SeparatePrefix(paths, last);
      forall p | Present(desired, init, p) ensures !Comparable(p, q) {
        assert Present(desired, paths, p);
      }
      ReadsShape(m, desired, init, q);
      var before := ReplaceAll(m, desired, init);
      match GetPath(Map(desired), last)
      case None =>
        AbsentBelow(Map(desired), last, q);
        if Comparable(last, q) {
          assert q < last;
          GetDeleteAbove(before, last, q);
        } else {
          GetDeleteBeside(before, last, q);
        }
      case Some(value) =>
        assert Present(desired, paths, last);
        GetSetBeside(before, last, value, q);
    }
  }

  lemma AbsentBelow(t: Tree, p: Path, q: Path)
    requires GetPath(t, p).None? && GetPath(t, q).Some?
    ensures !(p <= q)
  {
    if p < q {
      PathBelow(t, p, q);
    }
  }

  /* Reconciling again */

  /**
   Below a present owned path whose prefix the existing configuration holds as a
   non-mapping, the desired configuration has nothing but owned paths. The
   replacement rebuilds such a prefix with the owned paths alone.
   */
  ghost predicate Undisturbed(existing: Object, desired: Object, paths: seq<Path>) {
    forall p, n: nat, t |
      Present(desired, paths, p) && n < |p| && NonMap(GetPath(Map(existing), p[..n]))
      && p[..n] <= t && GetPath(Map(desired), t).Some? ::
      NearOwned(desired, paths, t)
  }

  lemma {:induction false} MapAtPrefix(t: Tree, p: Path, q: Path)
    requires MapAt(t, q) && p <= q
    ensures MapAt(t, p)
  {
    if p == q {
    } else {
      PathBelow(t, p, q);
    }
  }

  lemma BlockedByNonMap(t: Tree, q: Path, path: Path)
    requires NonMap(GetPath(t, q)) && q < path
    ensures Blocked(t, path) && GetPath(t, path).None?
  {
    assert path[..|q|] == q;
    if GetPath(t, path).Some? {
      PathBelow(t, q, path);
    }
  }

  /** Where the existing non-mapping has become a mapping, an owned path made it one. */
  lemma RebuiltIsNearOwned(existing: Object, desired: Object, paths: seq<Path>, q: Path, t: Path)
    requires Separate(paths) && Undisturbed(existing, desired, paths)
    requires NonMap(GetPath(Map(existing), q)) && MapAt(Map(Reconciled(existing, desired, paths)), q)
    requires q < t && GetPath(Map(desired), t).Some?
    ensures NearOwned(desired, paths, t)
  {
    var merged := MergeObjects(desired, existing);
    PathBelow(Map(desired), q, t);
    MergeReads(Map(desired), Map(existing), q);
    assert NearOwned(desired, paths, q) by {
      if !NearOwned(desired, paths, q) {
        ReadsShape(merged, desired, paths, q);
      }
    }
    var p :| Present(desired, paths, p) && Comparable(p, q);
    if p <= q {
      assert Comparable(p, t);
    } else {
      assert p[..|q|] == q;
    }
  }

  lemma UndisturbedCovers(existing: Object, desired: Object, paths: seq<Path>, u: Path, k: string)
    requires Separate(paths) && Undisturbed(existing, desired, paths)
    requires GetPath(Map(desired), u + [k]).Some? && MapAt(Map(Reconciled(existing, desired, paths)), u)
    ensures GetPath(Map(Reconciled(existing, desired, paths)), u + [k]).Some?
  {
    var t := u + [k];
    var merged := MergeObjects(desired, existing);
    var result := Map(Reconciled(existing, desired, paths));
    if !NearOwned(desired, paths, t) {
      ReadsShape(merged, desired, paths, t);
      MergeReads(Map(desired), Map(existing), t);
      forall n | 0 <= n < |t| ensures !NonMap(GetPath(Map(existing), t[..n])) {
        if NonMap(GetPath(Map(existing), t[..n])) {
          assert t[..n] <= u;
          MapAtPrefix(result, t[..n], u);
          RebuiltIsNearOwned(existing, desired, paths, t[..n], t);
        }
      }
    } else {
      var p :| Present(desired, paths, p) && Comparable(p, t);
      if p <= t {
        assert p + t[|p|..] == t;
        ReadsOwned(merged, desired, paths, p, t[|p|..]);
      } else {
        ReadsAbove(merged, desired, paths, p, t);
      }
    }
  }

  lemma {:induction false} CoveredBelow(existing: Object, desired: Object, paths: seq<Path>, q: Path, t: Path)
    requires Separate(paths) && CoversPaths(Map(desired), Map(Reconciled(existing, desired, paths)))
    requires NonMap(GetPath(Map(existing), q)) && q < t && GetPath(Map(desired), t).Some?
    requires MapAt(Map(Reconciled(existing, desired, paths)), q)
    ensures NearOwned(desired, paths, t)
    decreases |t|
  {
    var u, k := t[..|t| - 1], t[|t| - 1];
    assert u + [k] == t && q <= u < t;
    PathBelow(Map(desired), u, t);
    var merged := MergeObjects(desired, existing);
    if q < u {
      CoveredBelow(existing, desired, paths, q, u);
      var p :| Present(desired, paths, p) && Comparable(p, u);
      if p <= u {
        assert Comparable(p, t);
        return;
      }
      ReadsAbove(merged, desired, paths, p, u);
    }
    if !NearOwned(desired, paths, t) {
      assert q == u || q < u;
      assert GetPath(Map(desired), u + [k]).Some? && MapAt(Map(Reconciled(existing, desired, paths)), u);
      ReadsShape(merged, desired, paths, t);
      MergeReads(Map(desired), Map(existing), t);
      BlockedByNonMap(Map(existing), q, t);
    }
  }

  lemma CoveredExactly(existing: Object, desired: Object, paths: seq<Path>)
    requires Separate(paths)
    ensures Covers(Map(desired), Map(Reconciled(existing, desired, paths))) <==> Undisturbed(existing, desired, paths)
  {
    var result := Map(Reconciled(existing, desired, paths));
    CoversMeansPaths(Map(desired), result);
    if Undisturbed(existing, desired, paths) {
      forall u, k | GetPath(Map(desired), u + [k]).Some? && MapAt(result, u) ensures GetPath(result, u + [k]).Some? {
        UndisturbedCovers(existing, desired, paths, u, k);
      }
    }
    if CoversPaths(Map(desired), result) {
      forall p, n: nat, t |
        Present(desired, paths, p) && n < |p| && NonMap(GetPath(Map(existing), p[..n]))
        && p[..n] <= t && GetPath(Map(desired), t).Some?
        ensures NearOwned(desired, paths, t)
      {
        if p[..n] == t {
          assert Comparable(p, t);
        } else {
          ReadsAbove(MergeObjects(desired, existing), desired, paths, p, p[..n]);
          CoveredBelow(existing, desired, paths, p[..n], t);
        }
      }
    }
  }

  lemma {:induction false} ReplacingTheSame(m: Object, desired: Object, paths: seq<Path>)
    requires forall i | 0 <= i < |paths| ::
      paths[i] != [] && GetPath(Map(m), paths[i]) == GetPath(Map(desired), paths[i])
    ensures ReplaceAll(m, desired, paths) == m
    decreases |paths|
  {
    if paths != [] {
      var last := paths[|paths| - 1];
      ReplacingTheSame(m, desired, paths[..|paths| - 1]);
      match GetPath(Map(desired), last)
      case None => DeleteWhatIsAbsent(m, last);
      case Some(value) => SetWhatYouGet(m, last, value);
    }
  }

  /** After a first pass nothing is disturbed any more. */
  lemma ResultIsUndisturbed(existing: Object, desired: Object, paths: seq<Path>)
    requires Separate(paths)
    ensures Undisturbed(Reconciled(existing, desired, paths), desired, paths)
  {
    forall p, n: nat | Present(desired, paths, p) && n < |p|
      ensures MapAt(Map(Reconciled(existing, desired, paths)), p[..n])
    {
      ReadsAbove(MergeObjects(desired, existing), desired, paths, p, p[..n]);
    }
  }

  /**
   Reconciling the output again changes nothing exactly when the first pass rebuilt no prefix that
   the merge refills.
   */
  lemma IdempotentExactly(existing: Object, desired: Object, paths: seq<Path>)
    requires Separate(paths)
    ensures var once := Reconciled(existing, desired, paths);
      Reconciled(once, desired, paths) == once <==> Undisturbed(existing, desired, paths)
  {
    var once := Reconciled(existing, desired, paths);
    var twice := Reconciled(once, desired, paths);
    CoveredExactly(existing, desired, paths);
    if Covers(Map(desired), Map(once)) {
      CoversMeansAbsorbed(Map(desired), Map(once));
      forall i | 0 <= i < |paths| ensures GetPath(Map(once), paths[i]) == GetPath(Map(desired), paths[i]) {
        ReadsOwned(MergeObjects(desired, existing), desired, paths, paths[i], []);
        assert paths[i] + [] == paths[i];
      }
      ReplacingTheSame(once, desired, paths);
    }
    if twice == once {
      ResultIsUndisturbed(existing, desired, paths);
      CoveredExactly(once, desired, paths);
    }
  }

  /** Whatever the existing configuration was, the second pass is final. */
  lemma StableFromTheSecondPass(existing: Object, desired: Object, paths: seq<Path>)
    requires Separate(paths)
    ensures var twice := Reconciled(Reconciled(existing, desired, paths), desired, paths);
      Reconciled(twice, desired, paths) == twice
  {
    ResultIsUndisturbed(existing, desired, paths);
    IdempotentExactly(Reconciled(existing, desired, paths), desired, paths);
  }

  /** Existing mappings, or nothing, on every proper prefix of an owned path are enough. */
  lemma IdempotentWhenOpen(existing: Object, desired: Object, paths: seq<Path>)
    requires Separate(paths)
    requires forall p | p in paths :: !Blocked(Map(existing), p)
    ensures var once := Reconciled(existing, desired, paths); Reconciled(once, desired, paths) == once
  {
    assert Undisturbed(existing, desired, paths) by {
      forall p, n: nat | Present(desired, paths, p) && n < |p| ensures !NonMap(GetPath(Map(existing), p[..n])) {
        assert !Blocked(Map(existing), p);
      }
    }
    IdempotentExactly(existing, desired, paths);
  }

  /** Who owns what: owned paths come from `desired`, paths beside them from the merge, existing values first. */
  lemma OwnershipFrame(existing: Object, desired: Object, paths: seq<Path>, q: Path)
    requires Separate(paths)
    ensures (exists p :: p in paths && p <= q) ==>
      GetPath(Map(Reconciled(existing, desired, paths)), q) == GetPath(Map(desired), q)
    ensures (forall p | p in paths :: !Comparable(p, q)) ==>
      var read := GetPath(Map(Reconciled(existing, desired, paths)), q);
      match (GetPath(Map(desired), q), GetPath(Map(existing), q))
      case (None, Some(theirs)) => read == Some(theirs)
      case (Some(ours), Some(theirs)) => read == Some(DeepMerge(ours, theirs))
      case (ours, None) => read == if Blocked(Map(existing), q) then None else ours
  {
    if p :| p in paths && p <= q {
      ReadsOwned(MergeObjects(desired, existing), desired, paths, p, q[|p|..]);
      assert p + q[|p|..] == q;
    }
    if forall p | p in paths :: !Comparable(p, q) {
      ReadsBeside(MergeObjects(desired, existing), desired, paths, q);
      MergeReads(Map(desired), Map(existing), q);
    }
  }
}
