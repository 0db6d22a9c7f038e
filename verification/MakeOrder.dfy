/** When the values of Makefile variables depend on the order in which they are expanded. */
module MakeOrder {
  import opened MakeVars

  ghost predicate OrderMatters(raw: Assignments) {
    exists order, order' | IsOrder(raw, order) && IsOrder(raw, order') ::
      ExpandAll(raw, order) != ExpandAll(raw, order')
  }

  /** The names that a value refers to, from left to right. */
  function References(pieces: seq<Piece>): seq<string> {
    if pieces == [] then []
    else if pieces[0].Ref? then [pieces[0].name] + References(pieces[1..])
    else References(pieces[1..])
  }

  /** The two differ in their literal texts only. */
  predicate SameReferences(raw: Assignments, raw': Assignments) {
    raw.Keys == raw'.Keys && forall n | n in raw :: References(raw[n]) == References(raw'[n])
  }

  /** Two different variables refer to each other, directly or not. */
  ghost predicate Mutual(raw: Assignments, a: string, b: string) {
    a != b && Reaches(raw, a, b) && Reaches(raw, b, a)
  }

  ghost predicate NoneMutual(raw: Assignments) {
    forall a, b :: !Mutual(raw, a, b)
  }

  /* Without such a pair only self-references are cut */

  ghost predicate AllReach(raw: Assignments, seen: set<string>, name: string) {
    forall s | s in seen :: Reaches(raw, s, name)
  }

  /** A reference of `name` to something seen on the way to it is a reference to itself. */
  lemma SeenIsSelf(raw: Assignments, seen: set<string>, name: string, next: string)
    requires NoneMutual(raw) && AllReach(raw, seen, name) && Refers(raw, name, next)
    ensures AllReach(raw, seen + {name}, next)
    ensures next in seen ==> next == name
  {
    ReachesSelf(raw, name);
    forall s | s in seen + {name} ensures Reaches(raw, s, next) {
      ReachesNext(raw, s, name, next);
    }
    if next in seen {
      assert !Mutual(raw, name, next);
    }
  }

  ghost predicate PiecesReached(raw: Assignments, pieces: seq<Piece>, seen: set<string>, name: string) {
    name in seen && forall n | Ref(n) in pieces :: AllReach(raw, seen, n) && (n in seen ==> n == name)
  }

  lemma PiecesBelow(raw: Assignments, seen: set<string>, name: string)
    requires NoneMutual(raw) && AllReach(raw, seen, name) && name in raw
    ensures PiecesReached(raw, raw[name], seen + {name}, name)
  {
    forall n | Ref(n) in raw[name] ensures AllReach(raw, seen + {name}, n) && (n in seen + {name} ==> n == name) {
      SeenIsSelf(raw, seen, name, n);
    }
  }

  /** What was seen on the way to a variable does not change its value. */
  lemma {:induction false} CutsAreOwn(raw: Assignments, name: string, seen: set<string>, seen': set<string>)
    requires NoneMutual(raw) && AllReach(raw, seen, name) && AllReach(raw, seen', name)
    requires name !in seen && name !in seen'
    ensures Substituted(raw, name, seen) == Substituted(raw, name, seen')
    decreases |raw.Keys - seen|, 0
  {
    if name in raw {
      PiecesBelow(raw, seen, name);
      PiecesBelow(raw, seen', name);
      Fewer(raw, seen, name);
      PieceCutsAreOwn(raw, raw[name], seen + {name}, seen' + {name}, name);
    }
  }

  lemma {:induction false} PieceCutsAreOwn(raw: Assignments, pieces: seq<Piece>, seen: set<string>, seen': set<string>,
      name: string)
    requires NoneMutual(raw) && PiecesReached(raw, pieces, seen, name) && PiecesReached(raw, pieces, seen', name)
    ensures SubstitutedPieces(raw, pieces, seen) == SubstitutedPieces(raw, pieces, seen')
    decreases |raw.Keys - seen|, |pieces| + 1
  {
    if pieces != [] {
      if pieces[0].Ref? {
        assert Ref(pieces[0].name) in pieces;
        if pieces[0].name != name {
          CutsAreOwn(raw, pieces[0].name, seen, seen');
        }
      }
      PieceCutsAreOwn(raw, pieces[1..], seen, seen', name);
    }
  }

  /** Every memoised value is the denotation, cuts at self-references included. */
  ghost predicate Canonical(raw: Assignments, memo: Memo) {
    forall n | n in memo :: n in raw && memo[n] == Denotation(raw, n)
  }

  lemma {:induction false} ExpandIsCanonical(raw: Assignments, name: string, seen: set<string>, memo: Memo)
    requires NoneMutual(raw) && AllReach(raw, seen, name)
    requires Canonical(raw, memo) && memo.Keys !! seen
    ensures var (value, memo') := Expand(raw, name, seen, memo);
      && value == Substituted(raw, name, seen)
      && Canonical(raw, memo') && memo'.Keys !! seen && memo.Keys <= memo'.Keys
      && (name in raw && name !in seen ==> name in memo')
    decreases |raw.Keys - seen|, 0
  {
    if name in memo {
      CutsAreOwn(raw, name, {}, seen);
    } else if name in raw && name !in seen {
      Fewer(raw, seen, name);
      PiecesBelow(raw, seen, name);
      PiecesAreCanonical(raw, raw[name], seen + {name}, memo, name);
      ExpandUnfolds(raw, name, seen, memo);
      CutsAreOwn(raw, name, {}, seen);
    }
  }

  lemma {:induction false} PiecesAreCanonical(raw: Assignments, pieces: seq<Piece>, seen: set<string>, memo: Memo,
      name: string)
    requires NoneMutual(raw) && PiecesReached(raw, pieces, seen, name)
    requires Canonical(raw, memo) && memo.Keys !! seen
    ensures var (value, memo') := ExpandPieces(raw, pieces, seen, memo);
      && value == SubstitutedPieces(raw, pieces, seen)
      && Canonical(raw, memo') && memo'.Keys !! seen && memo.Keys <= memo'.Keys
    decreases |raw.Keys - seen|, |pieces| + 1
  {
    if pieces != [] {
      var memo' := memo;
      if pieces[0].Ref? {
        assert Ref(pieces[0].name) in pieces;
        ExpandIsCanonical(raw, pieces[0].name, seen, memo);
        memo' := Expand(raw, pieces[0].name, seen, memo).1;
      }
      PiecesAreCanonical(raw, pieces[1..], seen, memo', name);
    }
  }

  lemma {:induction false} AllAreCanonical(raw: Assignments, order: seq<string>)
    requires NoneMutual(raw) && forall n | n in order :: n in raw
    ensures Canonical(raw, ExpandAll(raw, order)) && forall n | n in order :: n in ExpandAll(raw, order)
    decreases |order|
  {
    if order != [] {
      var init, last := order[..|order| - 1], order[|order| - 1];
      AllAreCanonical(raw, init);
      ExpandIsCanonical(raw, last, {}, ExpandAll(raw, init));
      assert forall n | n in order :: n == last || n in init;
    }
  }

  /** Where no two variables refer to each other, every order gives every variable its denotation. */
  lemma EveryOrderGivesDenotations(raw: Assignments, order: seq<string>)
    requires NoneMutual(raw) && IsOrder(raw, order)
    ensures ExpandAll(raw, order) == map n | n in raw :: Denotation(raw, n)
  {
    AllAreCanonical(raw, order);
  }

  /* The memo only grows */

  predicate Extends(memo: Memo, memo': Memo, seen: set<string>) {
    && (forall n | n in memo :: n in memo' && memo'[n] == memo[n])
    && forall s | s in seen && s in memo' :: s in memo
  }

  lemma {:induction false} ExpandExtends(raw: Assignments, name: string, seen: set<string>, memo: Memo)
    ensures Extends(memo, Expand(raw, name, seen, memo).1, seen)
    decreases |raw.Keys - seen|, 0
  {
    if name !in memo && name in raw && name !in seen {
      Fewer(raw, seen, name);
      PiecesExtend(raw, raw[name], seen + {name}, memo);
      ExpandUnfolds(raw, name, seen, memo);
    }
  }

  lemma {:induction false} PiecesExtend(raw: Assignments, pieces: seq<Piece>, seen: set<string>, memo: Memo)
    ensures Extends(memo, ExpandPieces(raw, pieces, seen, memo).1, seen)
    decreases |raw.Keys - seen|, |pieces| + 1
  {
    if pieces != [] {
      var memo' := memo;
      if pieces[0].Ref? {
        ExpandExtends(raw, pieces[0].name, seen, memo);
        memo' := Expand(raw, pieces[0].name, seen, memo).1;
      }
      PiecesExtend(raw, pieces[1..], seen, memo');
    }
  }

  /* With such a pair, texts and orders that make a difference */

  /** Only `marked` has a text of its own. */
  ghost predicate OnlyText(raw: Assignments, marked: string) {
    && marked in raw && raw[marked] != [] && raw[marked][0] == Text("x")
    && (forall i | 0 < i < |raw[marked]| :: raw[marked][i].Ref?)
    && forall n, i | n in raw && n != marked && 0 <= i < |raw[n]| :: raw[n][i].Ref?
  }

  predicate AllRefs(pieces: seq<Piece>) {
    forall i | 0 <= i < |pieces| :: pieces[i].Ref?
  }

  predicate Blank(memo: Memo, marked: string) {
    marked !in memo && forall n | n in memo :: memo[n] == ""
  }

  /** While the marked variable is being expanded, all others come out empty. */
  lemma {:induction false} BlankBelow(raw: Assignments, name: string, seen: set<string>, memo: Memo, marked: string)
    requires OnlyText(raw, marked) && marked in seen && Blank(memo, marked)
    ensures Expand(raw, name, seen, memo).0 == "" && Blank(Expand(raw, name, seen, memo).1, marked)
    decreases |raw.Keys - seen|, 0
  {
    if name !in memo && name in raw && name !in seen {
      Fewer(raw, seen, name);
      BlankPieces(raw, raw[name], seen + {name}, memo, marked);
      ExpandUnfolds(raw, name, seen, memo);
    }
  }

  lemma {:induction false} BlankPieces(raw: Assignments, pieces: seq<Piece>, seen: set<string>, memo: Memo,
      marked: string)
    requires OnlyText(raw, marked) && marked in seen && Blank(memo, marked) && AllRefs(pieces)
    ensures ExpandPieces(raw, pieces, seen, memo).0 == "" && Blank(ExpandPieces(raw, pieces, seen, memo).1, marked)
    decreases |raw.Keys - seen|, |pieces| + 1
  {
    if pieces != [] {
      BlankBelow(raw, pieces[0].name, seen, memo, marked);
      BlankPieces(raw, pieces[1..], seen, Expand(raw, pieces[0].name, seen, memo).1, marked);
    }
  }

  predicate Shows(memo: Memo, marked: string) {
    marked in memo ==> memo[marked] != ""
  }

  /** Wherever it is expanded, the marked variable shows its text. */
  lemma {:induction false} MarkShows(raw: Assignments, name: string, seen: set<string>, memo: Memo, marked: string)
    requires OnlyText(raw, marked) && Shows(memo, marked)
    ensures Shows(Expand(raw, name, seen, memo).1, marked)
    ensures name == marked && marked !in seen ==> Expand(raw, name, seen, memo).0 != ""
    decreases |raw.Keys - seen|, 0
  {
    if name !in memo && name in raw && name !in seen {
      Fewer(raw, seen, name);
      MarkShowsInPieces(raw, raw[name], seen + {name}, memo, marked);
      ExpandUnfolds(raw, name, seen, memo);
    }
  }

  lemma {:induction false} MarkShowsInPieces(raw: Assignments, pieces: seq<Piece>, seen: set<string>, memo: Memo,
      marked: string)
    requires OnlyText(raw, marked) && Shows(memo, marked)
    ensures Shows(ExpandPieces(raw, pieces, seen, memo).1, marked)
    ensures Ref(marked) in pieces && marked !in seen ==> ExpandPieces(raw, pieces, seen, memo).0 != ""
    ensures pieces != [] && pieces[0] == Text("x") ==> ExpandPieces(raw, pieces, seen, memo).0 != ""
    decreases |raw.Keys - seen|, |pieces| + 1
  {
    if pieces != [] {
      var memo' := memo;
      if pieces[0].Ref? {
        MarkShows(raw, pieces[0].name, seen, memo, marked);
        memo' := Expand(raw, pieces[0].name, seen, memo).1;
      }
      MarkShowsInPieces(raw, pieces[1..], seen, memo', marked);
      assert Ref(marked) in pieces ==> pieces[0] == Ref(marked) || Ref(marked) in pieces[1..];
    }
  }

  /** What a memoised variable refers to is memoised, or still being expanded. */
  ghost predicate Closed(raw: Assignments, memo: Memo, seen: set<string>) {
    forall n, m | n in memo && Refers(raw, n, m) && m in raw :: m in memo || m in seen
  }

  lemma {:induction false} ExpandCloses(raw: Assignments, name: string, seen: set<string>, memo: Memo)
    requires Closed(raw, memo, seen)
    ensures Closed(raw, Expand(raw, name, seen, memo).1, seen)
    ensures name in raw ==> name in Expand(raw, name, seen, memo).1 || name in seen
    decreases |raw.Keys - seen|, 0
  {
    if name !in memo && name in raw && name !in seen {
      Fewer(raw, seen, name);
      PiecesClose(raw, raw[name], seen + {name}, memo);
      ExpandUnfolds(raw, name, seen, memo);
    }
  }

  lemma {:induction false} PiecesClose(raw: Assignments, pieces: seq<Piece>, seen: set<string>, memo: Memo)
    requires Closed(raw, memo, seen)
    ensures var memo' := ExpandPieces(raw, pieces, seen, memo).1;
      Closed(raw, memo', seen) && forall m | Ref(m) in pieces && m in raw :: m in memo' || m in seen
    decreases |raw.Keys - seen|, |pieces| + 1
  {
    if pieces != [] {
      var memo' := memo;
      if pieces[0].Ref? {
        ExpandCloses(raw, pieces[0].name, seen, memo);
        memo' := Expand(raw, pieces[0].name, seen, memo).1;
      }
      PiecesClose(raw, pieces[1..], seen, memo');
      PiecesExtend(raw, pieces[1..], seen, memo');
      assert forall m | Ref(m) in pieces :: pieces[0] == Ref(m) || Ref(m) in pieces[1..];
    }
  }

  lemma {:induction false} WalkIsMemoised(raw: Assignments, memo: Memo, walk: seq<string>)
    requires Closed(raw, memo, {}) && IsWalk(raw, walk) && walk[0] in memo && walk[|walk| - 1] in raw
    ensures walk[|walk| - 1] in memo
    decreases |walk|
  {
    if |walk| > 1 {
      var n := |walk| - 1;
      var init := walk[..n];
      assert IsWalk(raw, init) && Refers(raw, walk[n - 1], walk[n]);
      WalkIsMemoised(raw, memo, init);
    }
  }

  /** Expanded first, the marked variable leaves everything it reaches memoised, and empty but for itself. */
  lemma MarkedFirst(raw: Assignments, marked: string, other: string)
    requires OnlyText(raw, marked) && Reaches(raw, marked, other) && other != marked && other in raw
    ensures var memo := Expand(raw, marked, {}, map[]).1;
      other in memo && memo[other] == ""
  {
    var memo := Expand(raw, marked, {}, map[]).1;
    var pieces := raw[marked];
    ExpandUnfolds(raw, marked, {}, map[]);
    assert ExpandPieces(raw, pieces, {} + {marked}, map[]).1 == ExpandPieces(raw, pieces[1..], {} + {marked}, map[]).1;
    BlankPieces(raw, pieces[1..], {} + {marked}, map[], marked);
    ExpandCloses(raw, marked, {}, map[]);
    var walk :| IsWalk(raw, walk) && walk[0] == marked && walk[|walk| - 1] == other;
    WalkIsMemoised(raw, memo, walk);
  }

  /** Expanded first, a variable that refers to the marked one shows its text. */
  lemma ReferrerFirst(raw: Assignments, marked: string, other: string)
    requires OnlyText(raw, marked) && Refers(raw, other, marked) && other != marked
    ensures var memo := Expand(raw, other, {}, map[]).1;
      other in memo && memo[other] != ""
  {
    ExpandUnfolds(raw, other, {}, map[]);
    MarkShowsInPieces(raw, raw[other], {} + {other}, map[], marked);
  }

  /** The first variable keeps the value of its expansion, and so does everything memoised on the way. */
  lemma {:induction false} FirstDecides(raw: Assignments, order: seq<string>, n: string)
    requires order != [] && n in Expand(raw, order[0], {}, map[]).1
    ensures n in ExpandAll(raw, order) && ExpandAll(raw, order)[n] == Expand(raw, order[0], {}, map[]).1[n]
    decreases |order|
  {
    var init := order[..|order| - 1];
    if init == [] {
      assert ExpandAll(raw, init) == map[];
    } else {
      FirstDecides(raw, init, n);
      ExpandExtends(raw, order[|order| - 1], {}, ExpandAll(raw, init));
    }
  }

  lemma {:induction false} Listed(names: set<string>) returns (order: seq<string>)
    ensures Lists(order, names)
    decreases |names|
  {
    if names == {} {
      return [];
    }
    var n :| n in names;
    var rest := Listed(names - {n});
    order := [n] + rest;
  }

  lemma OrderFrom(raw: Assignments, first: string) returns (order: seq<string>)
    requires first in raw
    ensures IsOrder(raw, order) && order != [] && order[0] == first
  {
    var rest := Listed(raw.Keys - {first});
    order := [first] + rest;
  }

  /** Once only `marked` has a text, it matters whether it or something that refers to it comes first. */
  lemma MarkedOrderMatters(raw: Assignments, marked: string, other: string)
    requires OnlyText(raw, marked) && Reaches(raw, marked, other) && Refers(raw, other, marked) && other != marked
    ensures OrderMatters(raw)
  {
    var order := OrderFrom(raw, marked);
    var order' := OrderFrom(raw, other);
    MarkedFirst(raw, marked, other);
    FirstDecides(raw, order, other);
    ReferrerFirst(raw, marked, other);
    FirstDecides(raw, order', other);
  }

  /* Changing the texts keeps the references */

  function Bare(pieces: seq<Piece>): (bare: seq<Piece>)
    ensures References(bare) == References(pieces) && forall i | 0 <= i < |bare| :: bare[i].Ref?
  {
    if pieces == [] then [] else if pieces[0].Ref? then [pieces[0]] + Bare(pieces[1..]) else Bare(pieces[1..])
  }

  function Marked(raw: Assignments, marked: string): Assignments {
    map n | n in raw :: if n == marked then [Text("x")] + Bare(raw[n]) else Bare(raw[n])
  }

  lemma MarkedHasOneText(raw: Assignments, marked: string)
    requires marked in raw
    ensures OnlyText(Marked(raw, marked), marked) && SameReferences(raw, Marked(raw, marked))
  {
    var pieces := Marked(raw, marked)[marked];
    assert pieces[1..] == Bare(raw[marked]);
  }

  lemma {:induction false} ReferencesMean(pieces: seq<Piece>, name: string)
    ensures name in References(pieces) <==> Ref(name) in pieces
  {
    if pieces != [] {
      ReferencesMean(pieces[1..], name);
      assert Ref(name) in pieces <==> pieces[0] == Ref(name) || Ref(name) in pieces[1..];
    }
  }

  lemma SameRefers(raw: Assignments, raw': Assignments, n: string, m: string)
    requires SameReferences(raw, raw')
    ensures Refers(raw, n, m) <==> Refers(raw', n, m)
  {
    if n in raw {
      ReferencesMean(raw[n], m);
      ReferencesMean(raw'[n], m);
    }
  }

  lemma SameReaches(raw: Assignments, raw': Assignments, a: string, b: string)
    requires SameReferences(raw, raw') && Reaches(raw, a, b)
    ensures Reaches(raw', a, b)
  {
    var walk :| IsWalk(raw, walk) && walk[0] == a && walk[|walk| - 1] == b;
    forall i | 0 < i < |walk| ensures Refers(raw', walk[i - 1], walk[i]) {
      SameRefers(raw, raw', walk[i - 1], walk[i]);
    }
    assert IsWalk(raw', walk);
  }

  lemma SameNoneMutual(raw: Assignments, raw': Assignments)
    requires SameReferences(raw, raw') && NoneMutual(raw)
    ensures NoneMutual(raw')
  {
    forall a, b ensures !Mutual(raw', a, b) {
      assert !Mutual(raw, a, b);
      if Mutual(raw', a, b) {
        SameReaches(raw', raw, a, b);
        SameReaches(raw', raw, b, a);
      }
    }
  }

  /** On the way to `a` something else refers to it directly. */
  lemma {:induction false} LastReferrer(raw: Assignments, walk: seq<string>) returns (c: string)
    requires IsWalk(raw, walk) && walk[0] != walk[|walk| - 1]
    ensures c != walk[|walk| - 1] && Refers(raw, c, walk[|walk| - 1]) && Reaches(raw, walk[0], c)
    decreases |walk|
  {
    var n := |walk| - 1;
    var init := walk[..n];
    assert IsWalk(raw, init) && Refers(raw, walk[n - 1], walk[n]);
    c := walk[n - 1];
    if c == walk[n] {
      c := LastReferrer(raw, init);
    } else {
      assert init[0] == walk[0] && init[|init| - 1] == c;
    }
  }

  lemma ReachesThrough(raw: Assignments, a: string, b: string, c: string)
    requires Reaches(raw, a, b) && Reaches(raw, b, c)
    ensures Reaches(raw, a, c)
  {
    var walk :| IsWalk(raw, walk) && walk[0] == a && walk[|walk| - 1] == b;
    var walk' :| IsWalk(raw, walk') && walk'[0] == b && walk'[|walk'| - 1] == c;
    WalkConcat(raw, walk, walk');
  }

  lemma MutualHasReferrer(raw: Assignments, a: string, b: string) returns (c: string)
    requires Mutual(raw, a, b)
    ensures c != a && Refers(raw, c, a) && Reaches(raw, a, c) && a in raw
  {
    var walk :| IsWalk(raw, walk) && walk[0] == b && walk[|walk| - 1] == a;
    c := LastReferrer(raw, walk);
    ReachesThrough(raw, a, b, c);
    var out :| IsWalk(raw, out) && out[0] == a && out[|out| - 1] == c;
    assert Refers(raw, out[0], out[1]);
  }

  /** Some texts make the order of expansion matter exactly when two different variables refer to each other. */
  lemma OrderMattersExactly(raw: Assignments)
    ensures (exists raw' | SameReferences(raw, raw') :: OrderMatters(raw')) <==> exists a, b :: Mutual(raw, a, b)
  {
    if a, b :| Mutual(raw, a, b) {
      var c := MutualHasReferrer(raw, a, b);
      var raw' := Marked(raw, a);
      MarkedHasOneText(raw, a);
      SameRefers(raw, raw', c, a);
      SameReaches(raw, raw', a, c);
      MarkedOrderMatters(raw', a, c);
    } else {
      forall raw' | SameReferences(raw, raw') ensures !OrderMatters(raw') {
        SameNoneMutual(raw, raw');
        forall order, order' | IsOrder(raw', order) && IsOrder(raw', order')
          ensures ExpandAll(raw', order) == ExpandAll(raw', order')
        {
          EveryOrderGivesDenotations(raw', order);
          EveryOrderGivesDenotations(raw', order');
        }
      }
    }
  }
}
