/** Expanding Makefile variables with a memo shared by all expansions. */
module MakeVars {

  /** An assigned value, split into literal text and `$(NAME)` references. */
  datatype Piece = Text(text: string) | Ref(name: string)

  type Assignments = map<string, seq<Piece>>
  type Memo = map<string, string>

  /* Plain substitution */

  predicate Refers(raw: Assignments, name: string, other: string) {
    name in raw && Ref(other) in raw[name]
  }

  /** A walk along references. */
  ghost predicate IsWalk(raw: Assignments, walk: seq<string>) {
    walk != [] && forall i | 0 < i < |walk| :: Refers(raw, walk[i - 1], walk[i])
  }

  ghost predicate OnCycle(raw: Assignments, name: string) {
    exists walk :: IsWalk(raw, walk) && |walk| > 1 && walk[0] == name && walk[|walk| - 1] == name
  }

  /** A walk from `name` leads to a variable that refers back to itself. */
  ghost predicate ReachesCycle(raw: Assignments, name: string) {
    exists walk :: IsWalk(raw, walk) && walk[0] == name && OnCycle(raw, walk[|walk| - 1])
  }

  ghost predicate Acyclic(raw: Assignments, name: string) {
    !ReachesCycle(raw, name)
  }

  ghost predicate Reaches(raw: Assignments, name: string, other: string) {
    exists walk :: IsWalk(raw, walk) && walk[0] == name && walk[|walk| - 1] == other
  }

  lemma WalkConcat(raw: Assignments, a: seq<string>, b: seq<string>)
    requires IsWalk(raw, a) && IsWalk(raw, b) && a[|a| - 1] == b[0]
    ensures IsWalk(raw, a + b[1..])
    ensures (a + b[1..])[0] == a[0] && (a + b[1..])[|a + b[1..]| - 1] == b[|b| - 1]
  {
    var w := a + b[1..];
    forall i | 0 < i < |w| ensures Refers(raw, w[i - 1], w[i]) {
      if i >= |a| {
        assert w[i] == b[i - |a| + 1];
        assert w[i - 1] == b[i - |a|];
      }
    }
  }

  lemma ReachesSelf(raw: Assignments, name: string)
    ensures Reaches(raw, name, name)
  {
    assert IsWalk(raw, [name]);
  }

  lemma ReachesNext(raw: Assignments, name: string, other: string, next: string)
    requires Reaches(raw, name, other) && Refers(raw, other, next)
    ensures Reaches(raw, name, next)
  {
    var walk :| IsWalk(raw, walk) && walk[0] == name && walk[|walk| - 1] == other;
    assert IsWalk(raw, [other, next]);
    WalkConcat(raw, walk, [other, next]);
    assert walk + [other, next][1..] == walk + [next];
  }

  lemma CycleFurtherOn(raw: Assignments, name: string, other: string)
    requires Refers(raw, name, other) && ReachesCycle(raw, other)
    ensures ReachesCycle(raw, name)
  {
    var walk :| IsWalk(raw, walk) && walk[0] == other && OnCycle(raw, walk[|walk| - 1]);
    assert IsWalk(raw, [name, other]);
    WalkConcat(raw, [name, other], walk);
  }

  /** `ancestor` refers to something that leads to `name`. */
  ghost predicate Ancestor(raw: Assignments, ancestor: string, name: string) {
    exists next :: Refers(raw, ancestor, next) && Reaches(raw, next, name)
  }

  lemma OwnAncestorIsCyclic(raw: Assignments, name: string)
    requires Ancestor(raw, name, name)
    ensures ReachesCycle(raw, name)
  {
    var next :| Refers(raw, name, next) && Reaches(raw, next, name);
    var walk :| IsWalk(raw, walk) && walk[0] == next && walk[|walk| - 1] == name;
    assert IsWalk(raw, [name, next]);
    WalkConcat(raw, [name, next], walk);
    assert OnCycle(raw, name);
    assert IsWalk(raw, [name]);
  }

  lemma AncestorOfNext(raw: Assignments, ancestor: string, name: string, next: string)
    requires Ancestor(raw, ancestor, name) && Refers(raw, name, next)
    ensures Ancestor(raw, ancestor, next)
  {
    var first :| Refers(raw, ancestor, first) && Reaches(raw, first, name);
    ReachesNext(raw, first, name, next);
  }

  lemma ParentIsAncestor(raw: Assignments, name: string, next: string)
    requires Refers(raw, name, next)
    ensures Ancestor(raw, name, next)
  {
    ReachesSelf(raw, next);
  }

  /** Substitution that cuts off where it would run in a circle. */
  function Substituted(raw: Assignments, name: string, seen: set<string>): string
    decreases |raw.Keys - seen|, 0
  {
    if name in seen || name !in raw then "" else
    Fewer(raw, seen, name);
    SubstitutedPieces(raw, raw[name], seen + {name})
  }

  function SubstitutedPieces(raw: Assignments, pieces: seq<Piece>, seen: set<string>): string
    decreases |raw.Keys - seen|, |pieces| + 1
  {
    if pieces == [] then ""
    else (match pieces[0]
          case Text(t) => t
          case Ref(n) => Substituted(raw, n, seen))
         + SubstitutedPieces(raw, pieces[1..], seen)
  }

  lemma Fewer(raw: Assignments, seen: set<string>, name: string)
    requires name in raw && name !in seen
    ensures |raw.Keys - (seen + {name})| < |raw.Keys - seen|
  {
    assert raw.Keys - seen == (raw.Keys - (seen + {name})) + {name};
  }

  /** What a variable stands for. */
  function Denotation(raw: Assignments, name: string): string {
    Substituted(raw, name, {})
  }

  /** Each reference replaced by a given value. */
  function Filled(pieces: seq<Piece>, value: string -> string): string {
    if pieces == [] then ""
    else (match pieces[0]
          case Text(t) => t
          case Ref(n) => value(n))
         + Filled(pieces[1..], value)
  }

  ghost predicate AreAncestors(raw: Assignments, seen: set<string>, name: string) {
    forall s | s in seen :: Ancestor(raw, s, name)
  }

  lemma AcyclicBelow(raw: Assignments, name: string, other: string)
    requires Acyclic(raw, name) && Refers(raw, name, other)
    ensures Acyclic(raw, other)
  {
    if ReachesCycle(raw, other) {
      CycleFurtherOn(raw, name, other);
    }
  }

  lemma AncestorsBelow(raw: Assignments, seen: set<string>, name: string, next: string)
    requires AreAncestors(raw, seen, name) && Refers(raw, name, next)
    ensures AreAncestors(raw, seen + {name}, next)
  {
    forall s | s in seen + {name} ensures Ancestor(raw, s, next) {
      if s == name {
        ParentIsAncestor(raw, name, next);
      } else {
        AncestorOfNext(raw, s, name, next);
      }
    }
  }

  /** What an acyclic variable's pieces refer to is acyclic, and none of it was cut off before. */
  ghost predicate PiecesFree(raw: Assignments, pieces: seq<Piece>, seen: set<string>) {
    forall n | Ref(n) in pieces :: Acyclic(raw, n) && AreAncestors(raw, seen, n)
  }

  lemma FreeBelow(raw: Assignments, name: string, seen: set<string>)
    requires name in raw && Acyclic(raw, name) && AreAncestors(raw, seen, name)
    ensures PiecesFree(raw, raw[name], seen + {name}) && name !in seen
  {
    forall n | Ref(n) in raw[name] ensures Acyclic(raw, n) && AreAncestors(raw, seen + {name}, n) {
      AcyclicBelow(raw, name, n);
      AncestorsBelow(raw, seen, name, n);
    }
    if Ancestor(raw, name, name) {
      OwnAncestorIsCyclic(raw, name);
    }
  }

  /** Only ancestors are ever cut off, so for an acyclic variable the cuts play no part. */
  lemma {:induction false} CutsPlayNoPart(raw: Assignments, name: string, seen: set<string>, seen': set<string>)
    requires Acyclic(raw, name) && AreAncestors(raw, seen, name) && AreAncestors(raw, seen', name)
    ensures Substituted(raw, name, seen) == Substituted(raw, name, seen')
    decreases |raw.Keys - seen|, 0
  {
    if name in raw {
      FreeBelow(raw, name, seen);
      FreeBelow(raw, name, seen');
      Fewer(raw, seen, name);
      CutsPlayNoPartInPieces(raw, raw[name], seen + {name}, seen' + {name});
    }
  }

  lemma {:induction false} CutsPlayNoPartInPieces(raw: Assignments, pieces: seq<Piece>, seen: set<string>,
      seen': set<string>)
    requires PiecesFree(raw, pieces, seen) && PiecesFree(raw, pieces, seen')
    ensures SubstitutedPieces(raw, pieces, seen) == SubstitutedPieces(raw, pieces, seen')
    decreases |raw.Keys - seen|, |pieces| + 1
  {
    if pieces != [] {
      if pieces[0].Ref? {
        assert Ref(pieces[0].name) in pieces;
        CutsPlayNoPart(raw, pieces[0].name, seen, seen');
      }
      CutsPlayNoPartInPieces(raw, pieces[1..], seen, seen');
    }
  }

  /** Plain recursive substitution: undefined variables are empty, others are their pieces filled in. */
  ghost predicate SolvesEquations(raw: Assignments, value: string -> string) {
    forall n | Acyclic(raw, n) :: value(n) == if n in raw then Filled(raw[n], value) else ""
  }

  function Denotations(raw: Assignments): string -> string {
    n => Denotation(raw, n)
  }

  lemma {:induction false} PiecesAreFilled(raw: Assignments, pieces: seq<Piece>, seen: set<string>)
    requires PiecesFree(raw, pieces, seen)
    ensures SubstitutedPieces(raw, pieces, seen) == Filled(pieces, Denotations(raw))
    decreases |pieces|
  {
    if pieces != [] {
      if pieces[0].Ref? {
        assert Ref(pieces[0].name) in pieces;
        CutsPlayNoPart(raw, pieces[0].name, seen, {});
      }
      PiecesAreFilled(raw, pieces[1..], seen);
    }
  }

  /** The denotation obeys plain substitution on every variable from which no cycle is reachable. */
  lemma DenotationSolvesEquations(raw: Assignments)
    ensures SolvesEquations(raw, Denotations(raw))
  {
    forall n | Acyclic(raw, n)
      ensures Denotation(raw, n) == if n in raw then Filled(raw[n], Denotations(raw)) else ""
    {
      if n in raw {
        FreeBelow(raw, n, {});
        PiecesAreFilled(raw, raw[n], {} + {n});
      }
    }
  }

  /** Nothing else does. */
  lemma {:induction false} DenotationIsUnique(raw: Assignments, name: string, seen: set<string>,
      value: string -> string)
    requires SolvesEquations(raw, value) && Acyclic(raw, name) && AreAncestors(raw, seen, name)
    ensures value(name) == Denotation(raw, name)
    decreases |raw.Keys - seen|, 0
  {
    DenotationSolvesEquations(raw);
    if name in raw {
      FreeBelow(raw, name, seen);
      Fewer(raw, seen, name);
      PiecesAreUnique(raw, raw[name], seen + {name}, value);
    }
  }

  lemma {:induction false} PiecesAreUnique(raw: Assignments, pieces: seq<Piece>, seen: set<string>,
      value: string -> string)
    requires SolvesEquations(raw, value) && PiecesFree(raw, pieces, seen)
    ensures Filled(pieces, value) == Filled(pieces, Denotations(raw))
    decreases |raw.Keys - seen|, |pieces| + 1
  {
    if pieces != [] {
      if pieces[0].Ref? {
        assert Ref(pieces[0].name) in pieces;
        DenotationIsUnique(raw, pieces[0].name, seen, value);
      }
      PiecesAreUnique(raw, pieces[1..], seen, value);
    }
  }

  /* The memoised expansion */

  function Expand(raw: Assignments, name: string, seen: set<string>, memo: Memo): (string, Memo)
    decreases |raw.Keys - seen|, 0
  {
    if name in memo then (memo[name], memo)
    else if name in seen || name !in raw then ("", memo)
    else
      Fewer(raw, seen, name);
      var (value, memo') := ExpandPieces(raw, raw[name], seen + {name}, memo);
      (value, memo'[name := value])
  }

  function ExpandPieces(raw: Assignments, pieces: seq<Piece>, seen: set<string>, memo: Memo): (string, Memo)
    decreases |raw.Keys - seen|, |pieces| + 1
  {
    if pieces == [] then ("", memo)
    else
      var (first, memo') :=
        match pieces[0]
        case Text(t) => (t, memo)
        case Ref(n) => Expand(raw, n, seen, memo);
      var (rest, memo'') := ExpandPieces(raw, pieces[1..], seen, memo');
      (first + rest, memo'')
  }

  /** Every one of these names once, in some order. */
  ghost predicate Lists(order: seq<string>, names: set<string>) {
    && (forall n :: n in order <==> n in names)
    && forall i, j | 0 <= i < j < |order| :: order[i] != order[j]
  }

  /** An order of all assigned variables. */
  ghost predicate IsOrder(raw: Assignments, order: seq<string>) {
    Lists(order, raw.Keys)
  }

  /** The variables expanded one after the other, with one memo. */
  function ExpandAll(raw: Assignments, order: seq<string>): Memo
    decreases |order|
  {
    if order == [] then map[]
    else Expand(raw, order[|order| - 1], {}, ExpandAll(raw, order[..|order| - 1])).1
  }

  lemma OneMore(raw: Assignments, order: seq<string>, names: set<string>, name: string)
    requires Lists(order, names) && name !in names
    ensures Lists(order + [name], names + {name})
    ensures ExpandAll(raw, order + [name]) == Expand(raw, name, {}, ExpandAll(raw, order)).1
  {
    assert (order + [name])[..|order|] == order;
  }

  class Expander {
    const raw: Assignments
    var resolved: Memo

    constructor (raw: Assignments)
      ensures this.raw == raw && resolved == map[]
    {
      this.raw := raw;
      resolved := map[];
    }

    method ExpandName(name: string, seen: set<string>) returns (value: string)
      modifies this
      ensures (value, resolved) == Expand(raw, name, seen, old(resolved))
      decreases |raw.Keys - seen|, 0
    {
      if name in resolved {
        return resolved[name];
      }
      if name in seen || name !in raw {
        return "";
      }
      Fewer(raw, seen, name);
      value := SubstituteReferences(raw[name], seen + {name});
      resolved := resolved[name := value];
    }

    /** The pattern substitution over one assigned value, from left to right. */
    method SubstituteReferences(pieces: seq<Piece>, seen: set<string>) returns (value: string)
      modifies this
      ensures (value, resolved) == ExpandPieces(raw, pieces, seen, old(resolved))
      decreases |raw.Keys - seen|, |pieces| + 1
    {
      if pieces == [] {
        return "";
      }
      var first: string;
      match pieces[0] {
        case Text(t) => first := t;
        case Ref(n) => first := ExpandName(n, seen);
      }
      var rest := SubstituteReferences(pieces[1..], seen);
      value := first + rest;
    }
  }

  /** Memoised values of acyclic variables are right. */
  ghost predicate MemoOk(raw: Assignments, memo: Memo) {
    forall n | n in memo :: n in raw && (Acyclic(raw, n) ==> memo[n] == Denotation(raw, n))
  }

  ghost predicate AllAcyclic(raw: Assignments, pieces: seq<Piece>) {
    forall n | Ref(n) in pieces :: Acyclic(raw, n)
  }

  lemma ExpandUnfolds(raw: Assignments, name: string, seen: set<string>, memo: Memo)
    requires name !in memo && name in raw && name !in seen
    ensures var (v, memo') := ExpandPieces(raw, raw[name], seen + {name}, memo);
      Expand(raw, name, seen, memo) == (v, memo'[name := v])
  {
  }

  lemma MemoStaysOk(raw: Assignments, memo: Memo, name: string, value: string)
    requires MemoOk(raw, memo) && name in raw && (Acyclic(raw, name) ==> value == Denotation(raw, name))
    ensures MemoOk(raw, memo[name := value])
  {
  }

  lemma FilledIsRight(raw: Assignments, name: string, value: string)
    requires name in raw && Acyclic(raw, name)
    requires AllAcyclic(raw, raw[name]) ==> value == Filled(raw[name], Denotations(raw))
    ensures value == Denotation(raw, name)
  {
    DenotationSolvesEquations(raw);
    forall n | Ref(n) in raw[name] ensures Acyclic(raw, n) {
      AcyclicBelow(raw, name, n);
    }
    assert Denotations(raw)(name) == Denotation(raw, name);
  }

  /** The memo stays right, and so is the value returned. */
  lemma {:induction false} ExpandIsRight(raw: Assignments, name: string, seen: set<string>, memo: Memo)
    requires MemoOk(raw, memo) && AreAncestors(raw, seen, name)
    ensures var (value, memo') := Expand(raw, name, seen, memo);
      && MemoOk(raw, memo') && memo.Keys <= memo'.Keys
      && (Acyclic(raw, name) ==> value == Denotation(raw, name))
      && (name in raw && name !in seen ==> name in memo')
    decreases |raw.Keys - seen|, 0
  {
    if name !in memo && name in raw && name !in seen {
      Fewer(raw, seen, name);
      forall n | Ref(n) in raw[name] ensures AreAncestors(raw, seen + {name}, n) {
        AncestorsBelow(raw, seen, name, n);
      }
      PiecesAreRight(raw, raw[name], seen + {name}, memo);
      ExpandUnfolds(raw, name, seen, memo);
      var (value, memo') := ExpandPieces(raw, raw[name], seen + {name}, memo);
      if Acyclic(raw, name) {
        FilledIsRight(raw, name, value);
      }
      MemoStaysOk(raw, memo', name, value);
    } else if name !in memo && name in seen && Acyclic(raw, name) {
      OwnAncestorIsCyclic(raw, name);
    }
  }

  lemma {:induction false} PiecesAreRight(raw: Assignments, pieces: seq<Piece>, seen: set<string>, memo: Memo)
    requires MemoOk(raw, memo) && forall n | Ref(n) in pieces :: AreAncestors(raw, seen, n)
    ensures MemoOk(raw, ExpandPieces(raw, pieces, seen, memo).1) &&
      memo.Keys <= ExpandPieces(raw, pieces, seen, memo).1.Keys
    ensures AllAcyclic(raw, pieces) ==> ExpandPieces(raw, pieces, seen, memo).0 == Filled(pieces, Denotations(raw))
    decreases |raw.Keys - seen|, |pieces| + 1
  {
    if pieces != [] {
      var memo' := memo;
      if pieces[0].Ref? {
        assert Ref(pieces[0].name) in pieces;
        ExpandIsRight(raw, pieces[0].name, seen, memo);
        memo' := Expand(raw, pieces[0].name, seen, memo).1;
      }
      PiecesAreRight(raw, pieces[1..], seen, memo');
    }
  }

  lemma {:induction false} AllAreRight(raw: Assignments, order: seq<string>)
    requires forall n | n in order :: n in raw
    ensures MemoOk(raw, ExpandAll(raw, order)) && forall n | n in order :: n in ExpandAll(raw, order)
    decreases |order|
  {
    if order != [] {
      var init, last := order[..|order| - 1], order[|order| - 1];
      AllAreRight(raw, init);
      ExpandIsRight(raw, last, {}, ExpandAll(raw, init));
      assert forall n | n in order :: n == last || n in init;
    }
  }

  /** In every order each variable gets a value, and an acyclic one its denotation. */
  lemma OrderIsRight(raw: Assignments, order: seq<string>)
    requires IsOrder(raw, order)
    ensures ExpandAll(raw, order).Keys == raw.Keys
    ensures forall n | n in raw && Acyclic(raw, n) :: ExpandAll(raw, order)[n] == Denotation(raw, n)
  {
    AllAreRight(raw, order);
  }

  /**
   Every assigned variable gets a value, on every assignment graph; and whatever the order in
   which the variables are expanded, one from which no cycle is reachable gets its denotation.
   */
  method MakeVars(raw: Assignments) returns (resolved: Memo)
    ensures resolved.Keys == raw.Keys
    ensures exists order | IsOrder(raw, order) :: resolved == ExpandAll(raw, order)
    ensures forall n | n in raw && Acyclic(raw, n) :: resolved[n] == Denotation(raw, n)
  {
    var expander := new Expander(raw);
    var unvisited := raw.Keys;
    ghost var order: seq<string> := [];
    while unvisited != {}
      invariant expander.raw == raw && fresh(expander) && unvisited <= raw.Keys
      invariant Lists(order, raw.Keys - unvisited) && expander.resolved == ExpandAll(raw, order)
      decreases |unvisited|
    {
      var name :| name in unvisited;
      var _ := expander.ExpandName(name, {});
      OneMore(raw, order, raw.Keys - unvisited, name);
      assert raw.Keys - unvisited + {name} == raw.Keys - (unvisited - {name});
      order := order + [name];
      unvisited := unvisited - {name};
    }
    assert raw.Keys - unvisited == raw.Keys;
    assert IsOrder(raw, order);
    OrderIsRight(raw, order);
    resolved := expander.resolved;
  }

  /**
   On a cycle the order does matter: each of two variables ends up with the other one's text only
   if it comes first.
   */
  lemma OrderMattersOnACycle()
    ensures var raw := map["A" := [Text("x"), Ref("B")], "B" := [Text("y"), Ref("A")]];
      var first := Expand(raw, "A", {}, map[]).1;
      var second := Expand(raw, "A", {}, Expand(raw, "B", {}, map[]).1).1;
      "A" in first && "A" in second && first["A"] != second["A"]
  {
    var raw := map["A" := [Text("x"), Ref("B")], "B" := [Text("y"), Ref("A")]];
    ExpandTwo(raw, "A", "x", "B", "y");
    ExpandTwo(raw, "B", "y", "A", "x");
  }

  /** Expanding one of two variables that refer to each other. */
  lemma ExpandTwo(raw: Assignments, a: string, x: string, b: string, y: string)
    requires a != b && a in raw && b in raw && raw[a] == [Text(x), Ref(b)] && raw[b] == [Text(y), Ref(a)]
    ensures Expand(raw, a, {}, map[]) == (x + y, map[b := y, a := x + y])
  {
    var seen := {} + {a};
    var cut: Memo := map[b := y];
    ExpandPair(raw, y, a, seen + {b}, map[]);
    assert y + ("" + "") == y;
    ExpandUnfolds(raw, b, seen, map[]);
    assert Expand(raw, b, seen, map[]) == (y, cut);
    ExpandPair(raw, x, b, seen, map[]);
    assert x + (y + "") == x + y;
    ExpandUnfolds(raw, a, {}, map[]);
  }

  lemma ExpandPair(raw: Assignments, text: string, name: string, seen: set<string>, memo: Memo)
    ensures var (v, memo') := Expand(raw, name, seen, memo);
      ExpandPieces(raw, [Text(text), Ref(name)], seen, memo) == (text + (v + ""), memo')
  {
    var (v, memo') := Expand(raw, name, seen, memo);
    assert [Text(text), Ref(name)][1..] == [Ref(name)];
    ExpandOne(raw, name, seen, memo);
  }

  lemma ExpandOne(raw: Assignments, name: string, seen: set<string>, memo: Memo)
    ensures var (v, memo') := Expand(raw, name, seen, memo);
      ExpandPieces(raw, [Ref(name)], seen, memo) == (v + "", memo')
  {
    var (v, memo') := Expand(raw, name, seen, memo);
    assert [Ref(name)][1..] == [];
    assert ExpandPieces(raw, [], seen, memo') == ("", memo');
  }
}
