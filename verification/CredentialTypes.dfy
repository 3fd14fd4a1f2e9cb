/** Credential type inheritance: the `extends` lists of the known types and the
    worklist that collects all parent types. */
module CredentialTypes {
  import opened Wrappers

  type TypeName = string

  /** Every known credential type with its `extends` list, if it declares one. */
  type Hierarchy = map<TypeName, Option<seq<TypeName>>>

  /** The direct parents; an unknown type has none. */
  function Parents(h: Hierarchy, t: TypeName): seq<TypeName> {
    if t in h then h[t].GetOr([]) else []
  }

  // ---------- ancestors, defined independently of the worklist ----------

  ghost predicate IsPath(h: Hierarchy, path: seq<TypeName>) {
    && |path| >= 2
    && forall i :: 0 <= i < |path| - 1 ==> path[i + 1] in Parents(h, path[i])
  }

  ghost predicate PathBetween(h: Hierarchy, path: seq<TypeName>, t: TypeName, a: TypeName) {
    IsPath(h, path) && path[0] == t && path[|path| - 1] == a
  }

  /** `a` is a proper ancestor of `t`: some chain of `extends` steps leads from `t` to `a`. */
  ghost predicate Ancestor(h: Hierarchy, a: TypeName, t: TypeName) {
    exists path :: PathBetween(h, path, t, a)
  }

  ghost predicate Acyclic(h: Hierarchy) {
    forall t :: !Ancestor(h, t, t)
  }

  lemma ParentIsAncestor(h: Hierarchy, p: TypeName, t: TypeName)
    requires p in Parents(h, t)
    ensures Ancestor(h, p, t)
  {
    assert PathBetween(h, [t, p], t, p);
  }

  lemma AncestorTransitive(h: Hierarchy, a: TypeName, b: TypeName, c: TypeName)
    requires Ancestor(h, a, b) && Ancestor(h, b, c)
    ensures Ancestor(h, a, c)
  {
    var lower :| PathBetween(h, lower, c, b);
    var upper :| PathBetween(h, upper, b, a);
    assert PathBetween(h, lower + upper[1..], c, a);
  }

  /** An ancestor is a parent, or an ancestor of a parent. */
  lemma AncestorStep(h: Hierarchy, a: TypeName, t: TypeName)
    ensures Ancestor(h, a, t) <==> exists p :: p in Parents(h, t) && (p == a || Ancestor(h, a, p))
  {
    if Ancestor(h, a, t) {
      var path :| PathBetween(h, path, t, a);
      assert path[0 + 1] in Parents(h, path[0]);
      if |path| > 2 {
        assert PathBetween(h, path[1..], path[1], a);
      }
    }
    forall p | p in Parents(h, t) && (p == a || Ancestor(h, a, p))
      ensures Ancestor(h, a, t)
    {
      ParentIsAncestor(h, p, t);
      if p != a {
        AncestorTransitive(h, a, p, t);
      }
    }
  }

  // ---------- a rank that drops along every `extends` step ----------

  ghost function AllParents(h: Hierarchy): set<TypeName> {
    set t, p | t in h && p in Parents(h, t) :: p
  }

  ghost function Ancestors(h: Hierarchy, t: TypeName): set<TypeName> {
    set a | a in AllParents(h) && Ancestor(h, a, t)
  }

  lemma AncestorInAncestors(h: Hierarchy, a: TypeName, t: TypeName)
    requires Ancestor(h, a, t)
    ensures a in Ancestors(h, t)
  {
    var path :| PathBetween(h, path, t, a);
    var last := |path| - 2;
    assert path[last + 1] in Parents(h, path[last]);
  }

  ghost function Rank(h: Hierarchy, t: TypeName): nat {
    |Ancestors(h, t)|
  }

  lemma SubsetCardinality<T>(a: set<T>, b: set<T>)
    requires a < b
    ensures |a| < |b|
  {
    assert b == a + (b - a);
    assert b - a != {};
  }

  lemma RankDrops(h: Hierarchy, a: TypeName, t: TypeName)
    requires Acyclic(h) && Ancestor(h, a, t)
    ensures Rank(h, a) < Rank(h, t)
  {
    forall x | x in Ancestors(h, a)
      ensures x in Ancestors(h, t)
    {
      AncestorTransitive(h, x, a, t);
    }
    AncestorInAncestors(h, a, t);
    assert a !in Ancestors(h, a);
    SubsetCardinality(Ancestors(h, a), Ancestors(h, t));
  }

  // ---------- the weight of a worklist ----------

  ghost function FanOut(h: Hierarchy): (m: nat)
    ensures forall t :: |Parents(h, t)| <= m
    decreases |h|
  {
    if h == map[] then
      0
    else
      var k :| k in h;
      var rest := FanOut(h - {k});
      assert forall t :: t != k ==> Parents(h, t) == Parents(h - {k}, t);
      if rest < |Parents(h, k)| then |Parents(h, k)| else rest
  }

  /** Multiplication by repeated addition, which keeps products out of the later proofs. */
  ghost function Times(n: nat, b: nat): nat {
    if n == 0 then 0 else b + Times(n - 1, b)
  }

  lemma {:induction false} TimesMonotone(n: nat, k: nat, b: nat)
    requires n <= k
    ensures Times(n, b) <= Times(k, b)
  {
    if n > 0 {
      TimesMonotone(n - 1, k - 1, b);
    }
  }

  lemma {:induction false} TimesSum(n: nat, k: nat, b: nat)
    ensures Times(n + k, b) == Times(n, b) + Times(k, b)
  {
    if n > 0 {
      TimesSum(n - 1, k, b);
    }
  }

  lemma {:induction false} TimesProduct(n: nat, k: nat, b: nat)
    ensures Times(Times(n, k), b) == Times(n, Times(k, b))
  {
    if n > 0 {
      TimesSum(k, Times(n - 1, k), b);
      TimesProduct(n - 1, k, b);
    }
  }

  /** An upper bound on what an entry of rank `r` adds to a worklist with fan-out `m`. */
  ghost function Bound(m: nat, r: nat): (b: nat)
    ensures b >= 1
  {
    if r == 0 then 1 else 1 + Times(m, Times(Bound(m, r - 1), Bound(m, r - 1)))
  }

  lemma {:induction false} BoundMonotone(m: nat, r: nat, q: nat)
    requires r <= q
    ensures Bound(m, r) <= Bound(m, q)
    decreases q
  {
    if r < q {
      BoundMonotone(m, r, q - 1);
      var b := Bound(m, q - 1);
      TimesMonotone(1, b, b);
      if m > 0 {
        TimesMonotone(1, m, Times(b, b));
      } else {
        BoundOfNothing(r);
      }
    }
  }

  lemma BoundOfNothing(r: nat)
    ensures Bound(0, r) == 1
  {
  }

  ghost function Weight(h: Hierarchy, m: nat, work: seq<TypeName>): nat {
    if work == [] then 0 else Bound(m, Rank(h, work[0])) + Weight(h, m, work[1..])
  }

  lemma {:induction false} WeightAppend(h: Hierarchy, m: nat, a: seq<TypeName>, b: seq<TypeName>)
    ensures Weight(h, m, a + b) == Weight(h, m, a) + Weight(h, m, b)
  {
    if a == [] {
      assert a + b == b;
    } else {
      assert (a + b)[1..] == a[1..] + b;
      WeightAppend(h, m, a[1..], b);
    }
  }

  ghost predicate Below(h: Hierarchy, work: seq<TypeName>, r: nat) {
    forall x :: x in work ==> Rank(h, x) < r
  }

  lemma {:induction false} WeightBounded(h: Hierarchy, m: nat, work: seq<TypeName>, r: nat)
    requires Below(h, work, r + 1)
    ensures Weight(h, m, work) <= Times(|work|, Bound(m, r))
  {
    if work != [] {
      assert work[0] in work;
      BoundMonotone(m, Rank(h, work[0]), r);
      WeightBounded(h, m, work[1..], r);
    }
  }

  lemma ParentsBelow(h: Hierarchy, t: TypeName)
    requires Acyclic(h)
    ensures Below(h, Parents(h, t), Rank(h, t))
  {
    forall p | p in Parents(h, t)
      ensures Rank(h, p) < Rank(h, t)
    {
      ParentIsAncestor(h, p, t);
      RankDrops(h, p, t);
    }
  }

  lemma SquareCovers(n: nat, k: nat, m: nat, b: nat)
    requires n <= Times(k, b) && k <= m
    ensures Times(n, b) <= Times(m, Times(b, b))
  {
    TimesMonotone(n, Times(k, b), b);
    TimesProduct(k, b, b);
    TimesMonotone(k, m, Times(b, b));
  }

  /** The parent types of an entry weigh less than the entry: this is why the loop over a
      growing array ends. */
  lemma EntryOutweighs(h: Hierarchy, m: nat, t: TypeName, more: seq<TypeName>)
    requires Acyclic(h) && FanOut(h) == m
    requires Below(h, more, Rank(h, t)) && |more| <= Weight(h, m, Parents(h, t))
    ensures Weight(h, m, more) < Bound(m, Rank(h, t))
  {
    var r := Rank(h, t);
    if r == 0 {
      assert more == [] || more[0] in more;
    } else {
      ParentsBelow(h, t);
      WeightBounded(h, m, Parents(h, t), r - 1);
      WeightBounded(h, m, more, r - 1);
      SquareCovers(|more|, |Parents(h, t)|, m, Bound(m, r - 1));
    }
  }

  // ---------- the collected list as a function ----------

  /** All parent types of `t`, in the order (and with the repetitions) the loop produces. */
  ghost function ParentTypes(h: Hierarchy, t: TypeName): (all: seq<TypeName>)
    requires Acyclic(h)
    ensures |all| <= Weight(h, FanOut(h), Parents(h, t))
    ensures Below(h, all, Rank(h, t))
    decreases Rank(h, t), 1, 0
  {
    ParentsBelow(h, t);
    Expand(h, Parents(h, t), Rank(h, t))
  }

  /** A worklist followed by the parent types of its entries, and of those, and so on. */
  ghost function Expand(h: Hierarchy, work: seq<TypeName>, r: nat): (all: seq<TypeName>)
    requires Acyclic(h) && Below(h, work, r)
    ensures |all| <= Weight(h, FanOut(h), work)
    ensures Below(h, all, r)
    decreases r, 0, Weight(h, FanOut(h), work)
  {
    if work == [] then
      []
    else
      assert work[0] in work;
      var more := ParentTypes(h, work[0]);
      EntryOutweighs(h, FanOut(h), work[0], more);
      WeightAppend(h, FanOut(h), work[1..], more);
      [work[0]] + Expand(h, work[1..] + more, r)
  }

  /** One turn of the loop. */
  lemma ExpandStep(h: Hierarchy, work: seq<TypeName>, r: nat)
    requires Acyclic(h) && Below(h, work, r) && work != []
    ensures Rank(h, work[0]) < r
    ensures Below(h, work[1..] + ParentTypes(h, work[0]), r)
    ensures Weight(h, FanOut(h), work[1..] + ParentTypes(h, work[0])) < Weight(h, FanOut(h), work)
    ensures Expand(h, work, r) == [work[0]] + Expand(h, work[1..] + ParentTypes(h, work[0]), r)
  {
    assert work[0] in work;
    var more := ParentTypes(h, work[0]);
    EntryOutweighs(h, FanOut(h), work[0], more);
    WeightAppend(h, FanOut(h), work[1..], more);
  }

  /** The worklist stays in front, so direct parents come before everything else. */
  lemma {:induction false} ExpandKeepsPrefix(h: Hierarchy, work: seq<TypeName>, r: nat)
    requires Acyclic(h) && Below(h, work, r)
    ensures work <= Expand(h, work, r)
    decreases Weight(h, FanOut(h), work)
  {
    if work != [] {
      ExpandStep(h, work, r);
      ExpandKeepsPrefix(h, work[1..] + ParentTypes(h, work[0]), r);
      assert work == [work[0]] + work[1..];
    }
  }

  ghost predicate Reached(h: Hierarchy, x: TypeName, work: seq<TypeName>) {
    exists y :: y in work && (y == x || Ancestor(h, x, y))
  }

  lemma ReachedStep(h: Hierarchy, work: seq<TypeName>, more: seq<TypeName>, x: TypeName)
    requires work != []
    requires forall y :: y in more <==> Ancestor(h, y, work[0])
    ensures Reached(h, x, work) <==> x == work[0] || Reached(h, x, work[1..] + more)
  {
    var t := work[0];
    var next := work[1..] + more;
    if Reached(h, x, next) {
      var y :| y in next && (y == x || Ancestor(h, x, y));
      if y in more {
        if y != x {
          AncestorTransitive(h, x, y, t);
        }
        assert t in work && Ancestor(h, x, t);
      } else {
        assert y in work;
      }
    }
    assert t in work;
    if Reached(h, x, work) && x != t {
      var y :| y in work && (y == x || Ancestor(h, x, y));
      if y == t {
        assert x in next;
      } else {
        assert work == [t] + work[1..];
        assert y in next;
      }
      assert Reached(h, x, next);
    }
  }

  lemma {:induction false} ExpandElements(h: Hierarchy, work: seq<TypeName>, r: nat, x: TypeName)
    requires Acyclic(h) && Below(h, work, r)
    ensures x in Expand(h, work, r) <==> Reached(h, x, work)
    decreases r, 0, Weight(h, FanOut(h), work)
  {
    if work != [] {
      var more := ParentTypes(h, work[0]);
      ExpandStep(h, work, r);
      ExpandElements(h, work[1..] + more, r, x);
      forall y ensures y in more <==> Ancestor(h, y, work[0]) {
        ParentTypesAreAncestors(h, work[0], y);
      }
      ReachedStep(h, work, more, x);
    }
  }

  /** The collected list holds exactly the proper ancestors, whatever the shape of the
      (acyclic) hierarchy. */
  lemma {:induction false} ParentTypesAreAncestors(h: Hierarchy, t: TypeName, x: TypeName)
    requires Acyclic(h)
    ensures x in ParentTypes(h, t) <==> Ancestor(h, x, t)
    decreases Rank(h, t), 1, 0
  {
    ParentsBelow(h, t);
    ExpandElements(h, Parents(h, t), Rank(h, t), x);
    AncestorStep(h, x, t);
  }

  // ---------- single inheritance ----------

  ghost predicate SingleInheritance(h: Hierarchy) {
    forall t :: |Parents(h, t)| <= 1
  }

  /** The ancestors of `t`, nearest first. */
  ghost function Chain(h: Hierarchy, t: TypeName): seq<TypeName>
    requires Acyclic(h)
    decreases Rank(h, t)
  {
    if Parents(h, t) == [] then
      []
    else
      var p := Parents(h, t)[0];
      ParentIsAncestor(h, p, t);
      RankDrops(h, p, t);
      [p] + Chain(h, p)
  }

  function Without<T(==,!new)>(s: seq<T>, x: T): (r: seq<T>)
    ensures |r| <= |s| && x !in r
    ensures forall y :: y in r <==> y in s && y != x
  {
    if s == [] then []
    else if s[0] == x then Without(s[1..], x)
    else [s[0]] + Without(s[1..], x)
  }

  /** The sequence with every repetition after the first occurrence dropped. */
  function FirstOccurrences<T(==,!new)>(s: seq<T>): (r: seq<T>)
    ensures forall y :: y in r <==> y in s
    decreases |s|
  {
    if s == [] then [] else [s[0]] + FirstOccurrences(Without(s[1..], s[0]))
  }

  lemma {:induction false} WithoutAbsent<T(!new)>(s: seq<T>, x: T)
    requires x !in s
    ensures Without(s, x) == s
  {
    if s != [] {
      WithoutAbsent(s[1..], x);
      assert s == [s[0]] + s[1..];
    }
  }

  lemma {:induction false} WithoutAppend<T(!new)>(a: seq<T>, b: seq<T>, x: T)
    ensures Without(a + b, x) == Without(a, x) + Without(b, x)
  {
    if a == [] {
      assert a + b == b;
    } else {
      assert (a + b)[1..] == a[1..] + b;
      WithoutAppend(a[1..], b, x);
    }
  }

  lemma SomeElement<T(!new)>(s: seq<T>)
    ensures s == [] || exists y :: y in s
  {
    if s != [] {
      assert s[0] in s;
    }
  }

  lemma {:induction false} FirstOccurrencesOfKnown<T(!new)>(a: seq<T>, b: seq<T>)
    requires forall y :: y in b ==> y in a
    ensures FirstOccurrences(a + b) == FirstOccurrences(a)
    decreases |a|
  {
    if a == [] {
      SomeElement(b);
      assert a + b == a;
    } else {
      assert (a + b)[1..] == a[1..] + b;
      WithoutAppend(a[1..], b, a[0]);
      FirstOccurrencesOfKnown(Without(a[1..], a[0]), Without(b, a[0]));
    }
  }

  /** The parent types of `p` are closed: expanding them again adds only repetitions. */
  lemma ParentTypesAreClosed(h: Hierarchy, p: TypeName, r: nat, y: TypeName)
    requires Acyclic(h) && Below(h, ParentTypes(h, p), r)
    ensures y in Expand(h, ParentTypes(h, p), r) ==> y in ParentTypes(h, p)
  {
    var up := ParentTypes(h, p);
    ExpandElements(h, up, r, y);
    if Reached(h, y, up) {
      var z :| z in up && (z == y || Ancestor(h, y, z));
      ParentTypesAreAncestors(h, p, z);
      ParentTypesAreAncestors(h, p, y);
      if z != y {
        AncestorTransitive(h, y, z, p);
      }
    }
  }

  lemma OneParentList(h: Hierarchy, t: TypeName, p: TypeName)
    requires Acyclic(h) && Parents(h, t) == [p]
    ensures Rank(h, p) < Rank(h, t) && Below(h, ParentTypes(h, p), Rank(h, t))
    ensures ParentTypes(h, t) == [p] + Expand(h, ParentTypes(h, p), Rank(h, t))
  {
    ParentsBelow(h, t);
    ExpandStep(h, [p], Rank(h, t));
    assert [p][1..] + ParentTypes(h, p) == ParentTypes(h, p);
  }

  /** With one parent `p`, the list is `p`, then the parent types of `p`, then repetitions. */
  lemma OneParent(h: Hierarchy, t: TypeName, p: TypeName) returns (repeats: seq<TypeName>)
    requires Acyclic(h) && Parents(h, t) == [p]
    ensures Rank(h, p) < Rank(h, t)
    ensures ParentTypes(h, t) == [p] + (ParentTypes(h, p) + repeats)
    ensures forall y :: y in repeats ==> y in ParentTypes(h, p)
    ensures p !in ParentTypes(h, p)
  {
    OneParentList(h, t, p);
    ParentTypesAreAncestors(h, p, p);
    repeats := Repeats(h, ParentTypes(h, p), p, Rank(h, t));
  }

  lemma Repeats(h: Hierarchy, up: seq<TypeName>, p: TypeName, r: nat) returns (repeats: seq<TypeName>)
    requires Acyclic(h) && up == ParentTypes(h, p) && Below(h, up, r)
    ensures Expand(h, up, r) == up + repeats
    ensures forall y :: y in repeats ==> y in up
  {
    ExpandKeepsPrefix(h, up, r);
    var all := Expand(h, up, r);
    repeats := all[|up|..];
    forall y | y in repeats ensures y in up {
      assert y in all;
      ParentTypesAreClosed(h, p, r, y);
    }
  }

  /** Under single inheritance the first occurrences, in order, are the ancestor chain. */
  lemma {:induction false} ParentTypesFollowChain(h: Hierarchy, t: TypeName)
    requires Acyclic(h) && SingleInheritance(h)
    ensures FirstOccurrences(ParentTypes(h, t)) == Chain(h, t)
    decreases Rank(h, t)
  {
    if Parents(h, t) == [] {
      assert ParentTypes(h, t) == [];
    } else {
      var p := Parents(h, t)[0];
      assert Parents(h, t) == [p];
      var repeats := OneParent(h, t, p);
      var rest := ParentTypes(h, p) + repeats;
      assert ([p] + rest)[1..] == rest;
      WithoutAbsent(rest, p);
      FirstOccurrencesOfKnown(ParentTypes(h, p), repeats);
      ParentTypesFollowChain(h, p);
    }
  }

  // ---------- the program's loop ----------

  /** `done` has been visited and `work` is still to be visited. */
  ghost predicate Visiting(h: Hierarchy, t: TypeName, done: seq<TypeName>, work: seq<TypeName>)
    requires Acyclic(h)
  {
    && Below(h, work, Rank(h, t))
    && done + Expand(h, work, Rank(h, t)) == ParentTypes(h, t)
  }

  lemma Regroup<T>(a: seq<T>, x: T, b: seq<T>)
    ensures a + ([x] + b) == (a + [x]) + b
  {
  }

  lemma VisitOne(h: Hierarchy, t: TypeName, done: seq<TypeName>, work: seq<TypeName>)
    requires Acyclic(h) && Visiting(h, t, done, work) && work != []
    ensures Rank(h, work[0]) < Rank(h, t)
    ensures Visiting(h, t, done + [work[0]], work[1..] + ParentTypes(h, work[0]))
    ensures Weight(h, FanOut(h), work[1..] + ParentTypes(h, work[0])) < Weight(h, FanOut(h), work)
  {
    ExpandStep(h, work, Rank(h, t));
    Regroup(done, work[0], Expand(h, work[1..] + ParentTypes(h, work[0]), Rank(h, t)));
  }

  lemma CutAfter<T>(all: seq<T>, more: seq<T>, i: nat)
    requires i < |all|
    ensures (all + more)[i + 1..] == all[i..][1..] + more
    ensures (all + more)[..i + 1] == all[..i] + [all[i]]
  {
  }

  /** Collects all parent types by looping over an array that the loop body extends. */
  method GetParentTypes(h: Hierarchy, t: TypeName) returns (all: seq<TypeName>)
    requires Acyclic(h)
    ensures all == ParentTypes(h, t)
    decreases Rank(h, t)
  {
    ParentsBelow(h, t);
    var extendsArr := Parents(h, t);
    if |extendsArr| == 0 {
      return [];
    }
    all := extendsArr;
    var i := 0;
    assert all[i..] == all && all[..i] == [];
    while i < |all|
      invariant i <= |all| && Visiting(h, t, all[..i], all[i..])
      decreases Weight(h, FanOut(h), all[i..])
    {
      VisitOne(h, t, all[..i], all[i..]);
      var more := GetParentTypes(h, all[i]);
      CutAfter(all, more, i);
      all := all + more;
      i := i + 1;
    }
    assert all[..i] == all && all[i..] == [];
  }
}
