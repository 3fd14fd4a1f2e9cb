/** Overwrites for credential fields: the raw table, its in-place flattening along the type
    hierarchy, the overlay read back from it, and its application to a user's data. */
module CredentialsOverwrites {
  import opened Wrappers
  import opened CredentialTypes

  /** A scalar field value. `Undefined` is also what reading an absent key gives. */
  datatype Value = Null | Undefined | Text(text: string) | Number(number: int) | Flag(flag: bool)

  type Fields = map<string, Value>
  type Table = map<TypeName, Fields>

  function Entry(table: Table, t: TypeName): Option<Fields> {
    if t in table then Some(table[t]) else None
  }

  function Own(table: Table, t: TypeName): Fields {
    Entry(table, t).GetOr(map[])
  }

  // ---------- the plain overlay: what an overwrite is meant to be ----------

  /** The fields of all the types, nearest type first; a nearer type wins. */
  ghost function OverlayFields(table: Table, types: seq<TypeName>): Fields {
    if types == [] then map[] else OverlayFields(table, types[1..]) + Own(table, types[0])
  }

  ghost function Overlay(table: Table, types: seq<TypeName>): Option<Fields> {
    if exists t :: t in types && t in table then Some(OverlayFields(table, types)) else None
  }

  /** The overwrite of `t`: the entries from the root of its ancestor chain down to `t`. */
  ghost function Flat(h: Hierarchy, table: Table, t: TypeName): Option<Fields>
    requires Acyclic(h)
  {
    Overlay(table, [t] + Chain(h, t))
  }

  ghost function FlatFields(h: Hierarchy, table: Table, t: TypeName): Fields
    requires Acyclic(h)
  {
    OverlayFields(table, [t] + Chain(h, t))
  }

  ghost predicate Within(a: Fields, b: Fields) {
    forall k :: k in a ==> k in b && a[k] == b[k]
  }

  // ---------- reading an overwrite ----------

  /** The entries of the given types, absent ones dropped. */
  function Present(table: Table, types: seq<TypeName>): seq<Fields> {
    if types == [] then []
    else (if types[0] in table then [table[types[0]]] else []) + Present(table, types[1..])
  }

  function Reversed<T>(s: seq<T>): seq<T> {
    if s == [] then [] else Reversed(s[1..]) + [s[0]]
  }

  function AssignAll(target: Fields, entries: seq<Fields>): Fields
    decreases |entries|
  {
    if entries == [] then target else AssignAll(target + entries[0], entries[1..])
  }

  function Merge(table: Table, nearestFirst: seq<TypeName>): Option<Fields> {
    var entries := Present(table, Reversed(nearestFirst));
    if |entries| == 0 then None else Some(AssignAll(map[], entries))
  }

  ghost function Read(h: Hierarchy, table: Table, t: TypeName): Option<Fields>
    requires Acyclic(h)
  {
    Merge(table, [t] + ParentTypes(h, t))
  }

  lemma {:induction false} PresentAppend(table: Table, a: seq<TypeName>, b: seq<TypeName>)
    ensures Present(table, a + b) == Present(table, a) + Present(table, b)
  {
    if a == [] {
      assert a + b == b;
    } else {
      assert (a + b)[1..] == a[1..] + b;
      PresentAppend(table, a[1..], b);
    }
  }

  lemma {:induction false} AssignLast(target: Fields, entries: seq<Fields>, last: Fields)
    ensures AssignAll(target, entries + [last]) == AssignAll(target, entries) + last
    decreases |entries|
  {
    if entries == [] {
      assert entries + [last] == [last];
    } else {
      assert (entries + [last])[1..] == entries[1..] + [last];
      AssignLast(target + entries[0], entries[1..], last);
    }
  }

  lemma {:induction false} MergeFields(table: Table, types: seq<TypeName>)
    ensures AssignAll(map[], Present(table, Reversed(types))) == OverlayFields(table, types)
    ensures Present(table, Reversed(types)) == [] <==> forall t :: t in types ==> t !in table
  {
    if types != [] {
      var before := Reversed(types[1..]);
      MergeFields(table, types[1..]);
      PresentAppend(table, before, [types[0]]);
      assert forall t :: t in types <==> t == types[0] || t in types[1..];
      if types[0] in table {
        assert Present(table, [types[0]]) == [table[types[0]]];
        AssignLast(map[], Present(table, before), table[types[0]]);
      } else {
        assert Present(table, before) + [] == Present(table, before);
      }
    }
  }

  /** Reversing, dropping absent entries and assigning left to right is the overlay. */
  lemma MergeIsOverlay(table: Table, types: seq<TypeName>)
    ensures Merge(table, types) == Overlay(table, types)
  {
    MergeFields(table, types);
  }

  // ---------- repetitions in the ancestor list do not matter ----------

  lemma {:induction false} RepeatIsShadowed(table: Table, types: seq<TypeName>, x: TypeName)
    ensures OverlayFields(table, types) + Own(table, x)
         == OverlayFields(table, Without(types, x)) + Own(table, x)
  {
    if types != [] {
      var a := OverlayFields(table, types[1..]);
      var b := OverlayFields(table, Without(types[1..], x));
      var own := Own(table, x);
      RepeatIsShadowed(table, types[1..], x);
      assert a + own == b + own;
      if types[0] == x {
        assert (a + own) + own == a + own;
      } else {
        var y := Own(table, types[0]);
        ShadowUnder(a, b, y, own);
        var kept := [types[0]] + Without(types[1..], x);
        assert kept[1..] == Without(types[1..], x);
        assert OverlayFields(table, kept) == b + y;
      }
    }
  }

  lemma ShadowUnder(a: Fields, b: Fields, y: Fields, top: Fields)
    requires a + top == b + top
    ensures (a + y) + top == (b + y) + top
  {
    forall k | k !in top
      ensures (k in a <==> k in b) && (k in a ==> a[k] == b[k])
    {
      assert k in a + top <==> k in b + top;
      assert k in a ==> (a + top)[k] == (b + top)[k];
    }
  }

  lemma {:induction false} RepeatsAreShadowed(table: Table, types: seq<TypeName>)
    ensures Overlay(table, types) == Overlay(table, FirstOccurrences(types))
    ensures OverlayFields(table, types) == OverlayFields(table, FirstOccurrences(types))
    decreases |types|
  {
    if types != [] {
      var rest := Without(types[1..], types[0]);
      RepeatIsShadowed(table, types[1..], types[0]);
      RepeatsAreShadowed(table, rest);
      assert FirstOccurrences(types)[1..] == FirstOccurrences(rest);
    }
  }

  /** Reading through the repetition-laden list of parent types is the plain overlay. */
  lemma ReadIsFlat(h: Hierarchy, table: Table, t: TypeName)
    requires Acyclic(h) && SingleInheritance(h)
    ensures Read(h, table, t) == Flat(h, table, t)
  {
    var all := ParentTypes(h, t);
    MergeIsOverlay(table, [t] + all);
    RepeatsAreShadowed(table, [t] + all);
    ParentTypesAreAncestors(h, t, t);
    assert ([t] + all)[1..] == all;
    WithoutAbsent(all, t);
    ParentTypesFollowChain(h, t);
  }

  // ---------- the flattening pass and its lossy cache ----------

  datatype Resolution = Resolution(found: Option<Fields>, resolved: seq<TypeName>)

  /** What resolving `t` returns and which types it leaves marked as resolved. A type already
      marked returns its stored entry, whether or not the merge was ever stored there. */
  ghost function Resolve(h: Hierarchy, table: Table, resolved: seq<TypeName>, t: TypeName): Resolution
    requires Acyclic(h)
    decreases Rank(h, t), 1, 0
  {
    if t in resolved then
      Resolution(Entry(table, t), resolved)
    else if t !in h then
      Resolution(None, resolved)
    else if h[t].None? then
      Resolution(Entry(table, t), resolved + [t])
    else
      var up := ResolveParents(h, table, resolved, t, h[t].value, map[]);
      Resolution(Some(up.found.GetOr(map[]) + Own(table, t)), up.resolved + [t])
  }

  /** Resolves the parents from left to right, assigning each onto `target`. */
  ghost function ResolveParents(h: Hierarchy, table: Table, resolved: seq<TypeName>, t: TypeName,
                                parents: seq<TypeName>, target: Fields): (r: Resolution)
    requires Acyclic(h)
    requires forall p :: p in parents ==> p in Parents(h, t)
    ensures r.found.Some?
    decreases Rank(h, t), 0, |parents|
  {
    if parents == [] then
      Resolution(Some(target), resolved)
    else
      var p := parents[0];
      ParentIsAncestor(h, p, t);
      RankDrops(h, p, t);
      var one := Resolve(h, table, resolved, p);
      ResolveParents(h, table, one.resolved, t, parents[1..], target + one.found.GetOr(map[]))
  }

  datatype Store = Store(table: Table, resolved: seq<TypeName>)

  /** One turn of the loop over the raw table's keys. */
  ghost function FlattenOne(h: Hierarchy, s: Store, t: TypeName): Store
    requires Acyclic(h)
  {
    var r := Resolve(h, s.table, s.resolved, t);
    if r.found.Some? && |r.found.value| > 0 then
      Store(s.table[t := r.found.value], r.resolved)
    else
      Store(s.table, r.resolved)
  }

  ghost function FlattenAll(h: Hierarchy, s: Store, keys: seq<TypeName>): Store
    requires Acyclic(h)
    decreases |keys|
  {
    if keys == [] then s else FlattenAll(h, FlattenOne(h, s, keys[0]), keys[1..])
  }

  /** The stored table lies between the raw one and the flat one, entry by entry. */
  ghost predicate Sandwiched(h: Hierarchy, raw: Table, stored: Table)
    requires Acyclic(h)
  {
    && stored.Keys == raw.Keys
    && forall t :: t in raw ==> Within(raw[t], stored[t]) && Within(stored[t], FlatFields(h, raw, t))
  }

  lemma FlatStep(h: Hierarchy, table: Table, t: TypeName)
    requires Acyclic(h)
    ensures Parents(h, t) == [] ==> FlatFields(h, table, t) == Own(table, t)
    ensures Parents(h, t) != [] ==>
              FlatFields(h, table, t) == FlatFields(h, table, Parents(h, t)[0]) + Own(table, t)
  {
    assert ([t] + Chain(h, t))[1..] == Chain(h, t);
    if Parents(h, t) == [] {
      assert OverlayFields(table, Chain(h, t)) == map[];
    }
  }

  /** Whatever the cache holds, a resolution is at least the raw entry and at most the flat one. */
  lemma {:induction false} ResolveIsSandwiched(h: Hierarchy, raw: Table, stored: Table,
                                               resolved: seq<TypeName>, t: TypeName)
    requires Acyclic(h) && SingleInheritance(h) && Sandwiched(h, raw, stored)
    ensures var found := Resolve(h, stored, resolved, t).found.GetOr(map[]);
            && Within(found, FlatFields(h, raw, t))
            && (t in h || t in resolved ==> Within(Own(raw, t), found))
    decreases Rank(h, t)
  {
    FlatStep(h, raw, t);
    if t !in resolved && t in h && h[t].Some? && h[t].value != [] {
      var p := h[t].value[0];
      assert h[t].value == [p] by { assert |Parents(h, t)| <= 1; }
      ParentIsAncestor(h, p, t);
      RankDrops(h, p, t);
      ResolveIsSandwiched(h, raw, stored, resolved, p);
      var up := Resolve(h, stored, resolved, p);
      assert ResolveParents(h, stored, resolved, t, [p], map[])
          == ResolveParents(h, stored, up.resolved, t, [], map[] + up.found.GetOr(map[]));
      assert Within(Own(stored, t), FlatFields(h, raw, t));
    }
  }

  lemma StoringKeepsSandwich(h: Hierarchy, raw: Table, stored: Table, t: TypeName, found: Fields)
    requires Acyclic(h) && Sandwiched(h, raw, stored) && t in raw
    requires Within(raw[t], found) && Within(found, FlatFields(h, raw, t))
    ensures Sandwiched(h, raw, stored[t := found])
  {
    assert stored[t := found].Keys == raw.Keys;
  }

  lemma FlattenOneKeepsSandwich(h: Hierarchy, raw: Table, s: Store, t: TypeName)
    requires Acyclic(h) && SingleInheritance(h) && Sandwiched(h, raw, s.table) && t in raw
    ensures Sandwiched(h, raw, FlattenOne(h, s, t).table)
  {
    ResolveIsSandwiched(h, raw, s.table, s.resolved, t);
    var found := Resolve(h, s.table, s.resolved, t).found;
    if found.Some? && |found.value| > 0 {
      assert t in h || t in s.resolved;
      StoringKeepsSandwich(h, raw, s.table, t, found.value);
    }
  }

  lemma {:induction false} FlattenKeepsSandwich(h: Hierarchy, raw: Table, s: Store, keys: seq<TypeName>)
    requires Acyclic(h) && SingleInheritance(h) && Sandwiched(h, raw, s.table)
    requires forall t :: t in keys ==> t in raw
    ensures Sandwiched(h, raw, FlattenAll(h, s, keys).table)
    decreases |keys|
  {
    if keys != [] {
      assert keys[0] in keys;
      FlattenOneKeepsSandwich(h, raw, s, keys[0]);
      FlattenKeepsSandwich(h, raw, FlattenOne(h, s, keys[0]), keys[1..]);
    }
  }

  lemma RawIsSandwiched(h: Hierarchy, raw: Table)
    requires Acyclic(h)
    ensures Sandwiched(h, raw, raw)
  {
    forall t | t in raw
      ensures Within(raw[t], FlatFields(h, raw, t))
    {
      FlatStep(h, raw, t);
    }
  }

  /** A sandwiched table has the same overlays as the raw one. */
  lemma {:induction false} SandwichHasSameFields(h: Hierarchy, raw: Table, stored: Table, t: TypeName)
    requires Acyclic(h) && Sandwiched(h, raw, stored)
    ensures FlatFields(h, stored, t) == FlatFields(h, raw, t)
    decreases Rank(h, t)
  {
    FlatStep(h, raw, t);
    FlatStep(h, stored, t);
    if Parents(h, t) != [] {
      var p := Parents(h, t)[0];
      ParentIsAncestor(h, p, t);
      RankDrops(h, p, t);
      SandwichHasSameFields(h, raw, stored, p);
    }
    if t in raw {
      assert Within(raw[t], stored[t]) && Within(stored[t], FlatFields(h, raw, t));
    }
  }

  /** Main result: after loading a raw table, with its keys visited in any order, reading any
      type gives the plain root-to-leaf overlay of the RAW entries, although the cache marks
      types as resolved without storing their merge. */
  lemma LoadThenRead(h: Hierarchy, raw: Table, keys: seq<TypeName>, t: TypeName)
    requires Acyclic(h) && SingleInheritance(h)
    requires forall k :: k in keys ==> k in raw
    ensures Read(h, FlattenAll(h, Store(raw, []), keys).table, t) == Flat(h, raw, t)
  {
    var stored := FlattenAll(h, Store(raw, []), keys).table;
    RawIsSandwiched(h, raw);
    FlattenKeepsSandwich(h, raw, Store(raw, []), keys);
    SandwichHasSameFields(h, raw, stored, t);
    ReadIsFlat(h, stored, t);
  }

  /** The object handed to the loader is rewritten in place and may then be persisted. Loading
      that rewritten table again, in another order, changes no overwrite. */
  lemma ReloadThenRead(h: Hierarchy, raw: Table, keys: seq<TypeName>, again: seq<TypeName>, t: TypeName)
    requires Acyclic(h) && SingleInheritance(h)
    requires forall k :: k in keys || k in again ==> k in raw
    ensures var stored := FlattenAll(h, Store(raw, []), keys).table;
            Read(h, FlattenAll(h, Store(stored, []), again).table, t) == Flat(h, raw, t)
  {
    var stored := FlattenAll(h, Store(raw, []), keys).table;
    RawIsSandwiched(h, raw);
    FlattenKeepsSandwich(h, raw, Store(raw, []), keys);
    LoadThenRead(h, stored, again, t);
    SandwichHasSameFields(h, raw, stored, t);
  }

  predicate Defines(table: Table, t: TypeName, key: string) {
    t in table && key in table[t]
  }

  /** A field of an overlay is the field of the first type in the list that has it. */
  lemma {:induction false} NearestWins(table: Table, types: seq<TypeName>, key: string)
    ensures key in OverlayFields(table, types) <==> exists i :: 0 <= i < |types| && Defines(table, types[i], key)
    ensures forall i :: 0 <= i < |types| && Defines(table, types[i], key)
                        && (forall j :: 0 <= j < i ==> !Defines(table, types[j], key)) ==>
              key in OverlayFields(table, types) && OverlayFields(table, types)[key] == table[types[i]][key]
  {
    if types != [] {
      var rest := types[1..];
      NearestWins(table, rest, key);
      assert forall i :: 0 <= i < |rest| ==> rest[i] == types[i + 1];
      assert forall i :: 1 <= i < |types| ==> types[i] == rest[i - 1];
    }
  }

  /** After loading, a field of a type reads as the nearest of the type and its ancestors that has
      the field in the raw table has it; when none has, it does not read at all. */
  lemma LoadedFieldIsNearest(h: Hierarchy, raw: Table, keys: seq<TypeName>, t: TypeName, key: string, i: nat)
    requires Acyclic(h) && SingleInheritance(h) && forall k :: k in keys ==> k in raw
    requires var line := [t] + Chain(h, t);
             && i <= |line| && (i < |line| ==> Defines(raw, line[i], key))
             && forall j :: 0 <= j < i ==> !Defines(raw, line[j], key)
    ensures var line := [t] + Chain(h, t);
            var fields := Read(h, FlattenAll(h, Store(raw, []), keys).table, t).GetOr(map[]);
            && (key in fields <==> i < |line|)
            && (i < |line| ==> fields[key] == raw[line[i]][key])
  {
    var line := [t] + Chain(h, t);
    LoadThenRead(h, raw, keys, t);
    NearestWins(raw, line, key);
    if i < |line| {
      assert line[i] in line && line[i] in raw;
    }
  }

  // ---------- where single inheritance is needed ----------

  /** A leaf that extends two roots, `a` first. */
  ghost predicate TwoParents(h: Hierarchy, a: TypeName, b: TypeName, leaf: TypeName) {
    && a != b && a != leaf && b != leaf
    && h == map[leaf := Some([a, b]), a := None, b := None]
  }

  /** With two parents the flattening lets the LAST parent win (`one + two`) and reading lets the
      FIRST one win (`two + one`). So an entry on the leaf, however unrelated, flips the sibling
      that a shared field is read from. */
  lemma SiblingsRankDifferently(h: Hierarchy, a: TypeName, b: TypeName, leaf: TypeName,
                                one: Fields, two: Fields, extra: Fields)
    requires TwoParents(h, a, b, leaf) && extra != map[]
    ensures Acyclic(h)
    ensures var raw := map[a := one, b := two];
            Read(h, FlattenAll(h, Store(raw, []), [a, b]).table, leaf) == Some(two + one)
    ensures var raw := map[a := one, b := two, leaf := extra];
            Read(h, FlattenAll(h, Store(raw, []), [a, b] + [leaf]).table, leaf) == Some(one + two + extra)
  {
    TwoParentsIsAcyclic(h, a, b, leaf);
    LeafParentTypes(h, a, b, leaf);
    ReadWithoutLeafEntry(h, a, b, leaf, map[a := one, b := two]);
    ReadWithLeafEntry(h, a, b, leaf, map[a := one, b := two, leaf := extra]);
  }

  lemma ReadWithoutLeafEntry(h: Hierarchy, a: TypeName, b: TypeName, leaf: TypeName, raw: Table)
    requires TwoParents(h, a, b, leaf) && Acyclic(h) && ParentTypes(h, leaf) == [a, b]
    requires raw.Keys == {a, b}
    ensures Read(h, FlattenAll(h, Store(raw, []), [a, b]).table, leaf) == Some(raw[b] + raw[a])
  {
    FlattenRoots(h, a, b, leaf, raw);
    ReadLeaf(h, a, b, leaf, raw);
    assert raw[b] + raw[a] + map[] == raw[b] + raw[a];
  }

  lemma ReadWithLeafEntry(h: Hierarchy, a: TypeName, b: TypeName, leaf: TypeName, raw: Table)
    requires TwoParents(h, a, b, leaf) && Acyclic(h) && ParentTypes(h, leaf) == [a, b]
    requires raw.Keys == {a, b, leaf} && raw[leaf] != map[]
    ensures Read(h, FlattenAll(h, Store(raw, []), [a, b] + [leaf]).table, leaf) == Some(raw[a] + raw[b] + raw[leaf])
  {
    var merged := raw[a] + raw[b] + raw[leaf];
    FlattenRoots(h, a, b, leaf, raw);
    FlattenAppend(h, Store(raw, []), [a, b], [leaf]);
    FlattenLeaf(h, a, b, leaf, raw);
    ReadLeaf(h, a, b, leaf, raw[leaf := merged]);
    MergeShadows(raw[a], raw[b], raw[leaf]);
  }

  lemma MergeShadows(one: Fields, two: Fields, extra: Fields)
    ensures two + one + (one + two + extra) == one + two + extra
  {
  }

  lemma TwoParentsIsAcyclic(h: Hierarchy, a: TypeName, b: TypeName, leaf: TypeName)
    requires TwoParents(h, a, b, leaf)
    ensures Acyclic(h)
  {
    forall t
      ensures !Ancestor(h, t, t)
    {
      AncestorStep(h, t, t);
      if Ancestor(h, t, t) {
        var p :| p in Parents(h, t) && (p == t || Ancestor(h, t, p));
        AncestorStep(h, t, p);
        assert false;
      }
    }
  }

  lemma RootHasNoParentTypes(h: Hierarchy, t: TypeName)
    requires Acyclic(h) && Parents(h, t) == []
    ensures ParentTypes(h, t) == []
  {
  }

  lemma ExpandTwoRoots(h: Hierarchy, a: TypeName, b: TypeName, r: nat)
    requires Acyclic(h) && Below(h, [a, b], r) && ParentTypes(h, a) == [] && ParentTypes(h, b) == []
    ensures Expand(h, [a, b], r) == [a, b]
  {
    ExpandStep(h, [a, b], r);
    assert [a, b][1..] + [] == [b];
    ExpandStep(h, [b], r);
    assert [b][1..] + [] == [];
  }

  lemma LeafParentTypes(h: Hierarchy, a: TypeName, b: TypeName, leaf: TypeName)
    requires TwoParents(h, a, b, leaf) && Acyclic(h)
    ensures ParentTypes(h, leaf) == [a, b]
  {
    RootHasNoParentTypes(h, a);
    RootHasNoParentTypes(h, b);
    ParentsBelow(h, leaf);
    ExpandTwoRoots(h, a, b, Rank(h, leaf));
  }

  lemma {:induction false} FlattenAppend(h: Hierarchy, s: Store, first: seq<TypeName>, last: seq<TypeName>)
    requires Acyclic(h)
    ensures FlattenAll(h, s, first + last) == FlattenAll(h, FlattenAll(h, s, first), last)
    decreases |first|
  {
    if first == [] {
      assert first + last == last;
    } else {
      assert (first + last)[1..] == first[1..] + last;
      FlattenAppend(h, FlattenOne(h, s, first[0]), first[1..], last);
    }
  }

  lemma FlattenRoots(h: Hierarchy, a: TypeName, b: TypeName, leaf: TypeName, raw: Table)
    requires TwoParents(h, a, b, leaf) && Acyclic(h) && a in raw && b in raw
    ensures FlattenAll(h, Store(raw, []), [a, b]) == Store(raw, [a, b])
  {
    assert [] + [a] == [a] && [a] + [b] == [a, b];
    assert FlattenOne(h, Store(raw, []), a) == Store(raw, [a]);
    assert FlattenOne(h, Store(raw, [a]), b) == Store(raw, [a, b]);
    assert [a, b][1..] == [b] && [b][1..] == [];
    assert FlattenAll(h, Store(raw, [a]), [b]) == FlattenAll(h, Store(raw, [a, b]), []);
  }

  lemma ResolveLeaf(h: Hierarchy, a: TypeName, b: TypeName, leaf: TypeName, raw: Table)
    requires TwoParents(h, a, b, leaf) && Acyclic(h) && {a, b, leaf} <= raw.Keys
    ensures Resolve(h, raw, [a, b], leaf).found == Some(raw[a] + raw[b] + raw[leaf])
  {
    var resolved := [a, b];
    assert Resolve(h, raw, resolved, a) == Resolution(Some(raw[a]), resolved);
    assert Resolve(h, raw, resolved, b) == Resolution(Some(raw[b]), resolved);
    assert map[] + raw[a] == raw[a];
    assert [a, b][1..] == [b] && [b][1..] == [];
    var last := ResolveParents(h, raw, resolved, leaf, [b], raw[a]);
    assert last == ResolveParents(h, raw, resolved, leaf, [], raw[a] + raw[b]);
    assert ResolveParents(h, raw, resolved, leaf, [a, b], map[]) == last;
  }

  lemma FlattenLeaf(h: Hierarchy, a: TypeName, b: TypeName, leaf: TypeName, raw: Table)
    requires TwoParents(h, a, b, leaf) && Acyclic(h)
    requires {a, b, leaf} <= raw.Keys && raw[leaf] != map[]
    ensures FlattenAll(h, Store(raw, [a, b]), [leaf]).table == raw[leaf := raw[a] + raw[b] + raw[leaf]]
  {
    ResolveLeaf(h, a, b, leaf, raw);
    var k :| k in raw[leaf];
    assert k in raw[a] + raw[b] + raw[leaf];
    assert [leaf][1..] == [];
    var next := FlattenOne(h, Store(raw, [a, b]), leaf);
    assert FlattenAll(h, Store(raw, [a, b]), [leaf]) == FlattenAll(h, next, []);
  }

  lemma OverlayOfThree(table: Table, x: TypeName, y: TypeName, z: TypeName)
    ensures OverlayFields(table, [x, y, z]) == Own(table, z) + Own(table, y) + Own(table, x)
  {
    assert [x, y, z][1..] == [y, z] && [y, z][1..] == [z] && [z][1..] == [];
    assert OverlayFields(table, [z]) == map[] + Own(table, z);
  }

  lemma ReadLeaf(h: Hierarchy, a: TypeName, b: TypeName, leaf: TypeName, table: Table)
    requires Acyclic(h) && ParentTypes(h, leaf) == [a, b] && a in table && b in table
    ensures Read(h, table, leaf) == Some(table[b] + table[a] + Own(table, leaf))
  {
    var types := [leaf, a, b];
    assert [leaf] + [a, b] == types;
    MergeIsOverlay(table, types);
    assert a in types;
    OverlayOfThree(table, leaf, a, b);
  }

  // ---------- applying an overwrite to a user's data ----------

  function Field(data: Fields, key: string): Value {
    if key in data then data[key] else Undefined
  }

  predicate IsBlank(v: Value) {
    v == Null || v == Undefined || v == Text("")
  }

  /** The user has put a value of their own into an overwritten field. */
  predicate Customized(overwrites: Fields, data: Fields) {
    exists key :: key in overwrites && !IsBlank(Field(data, key)) && Field(data, key) != overwrites[key]
  }

  /** What applying must give: blank overwritten fields are filled, everything else is kept. */
  ghost function Applied(overwrites: Option<Fields>, skip: bool, data: Fields): Fields {
    if overwrites.None? || (skip && Customized(overwrites.value, data)) then data
    else Filled(overwrites.value, data, overwrites.value.Keys)
  }

  /** The data with the blank ones among `keys` filled. */
  ghost function Filled(overwrites: Fields, data: Fields, keys: set<string>): Fields {
    data + map key | key in overwrites && key in keys && IsBlank(Field(data, key)) :: overwrites[key]
  }

  lemma FillOne(overwrites: Fields, data: Fields, keys: set<string>, key: string)
    requires key in overwrites && key !in keys
    ensures Field(Filled(overwrites, data, keys), key) == Field(data, key)
    ensures Filled(overwrites, data, keys + {key})
         == if IsBlank(Field(data, key)) then Filled(overwrites, data, keys)[key := overwrites[key]]
            else Filled(overwrites, data, keys)
  {
  }

  ghost predicate UsesManaged(overwrites: Option<Fields>, skip: bool, data: Fields) {
    && overwrites.Some?
    && exists key :: key in overwrites.value
                && Field(Applied(overwrites, skip, data), key) != Field(data, key)
  }

  lemma ApplyIsIdempotent(overwrites: Option<Fields>, skip: bool, data: Fields)
    ensures var once := Applied(overwrites, skip, data);
            Applied(overwrites, skip, once) == once
  {
    var once := Applied(overwrites, skip, data);
    if overwrites.Some? && !(skip && Customized(overwrites.value, data)) {
      forall key | key in overwrites.value && IsBlank(Field(once, key))
        ensures once[key] == overwrites.value[key]
      {
        assert IsBlank(Field(data, key));
      }
    }
  }

  /** A value the user supplied is never replaced, and no field outside the overwrite changes. */
  lemma ApplyKeepsUserValues(overwrites: Option<Fields>, skip: bool, data: Fields, key: string)
    ensures var once := Applied(overwrites, skip, data);
            && (!IsBlank(Field(data, key)) ==> Field(once, key) == Field(data, key))
            && (overwrites.None? || key !in overwrites.value ==> Field(once, key) == Field(data, key))
            && (overwrites.Some? && skip && Customized(overwrites.value, data) ==> once == data)
            && (overwrites.Some? && !skip && key in overwrites.value && IsBlank(Field(data, key)) ==>
                  Field(once, key) == overwrites.value[key])
  {
  }

  /** An overwritten field that is absent, null, undefined or empty reads the overwrite's value
      afterwards; one that holds a number, a flag or any other text reads its own, whether or not the
      type is a skipped one. */
  lemma FieldBecomes(overwrites: Fields, data: Fields, key: string)
    requires key in overwrites
    ensures key !in data || data[key] == Null || data[key] == Undefined || data[key] == Text("") ==>
              var once := Applied(Some(overwrites), false, data);
              key in once && once[key] == overwrites[key]
    ensures key in data && (data[key].Number? || data[key].Flag? || (data[key].Text? && data[key] != Text(""))) ==>
              forall skip :: var once := Applied(Some(overwrites), skip, data);
                             key in once && once[key] == data[key]
  {
  }

  /** The data of a skipped type is filled like any other as long as every overwritten field is
      absent, null, undefined, empty or what the overwrite has; otherwise it is left as it is. */
  lemma SkippedTypeExactly(overwrites: Fields, data: Fields)
    ensures (forall key :: key in overwrites && key in data ==>
               data[key] in [Null, Undefined, Text(""), overwrites[key]]) ==>
            Applied(Some(overwrites), true, data) == Applied(Some(overwrites), false, data)
    ensures (exists key :: key in overwrites && key in data && data[key] !in [Null, Undefined, Text("")]
                           && data[key] != overwrites[key]) ==>
            Applied(Some(overwrites), true, data) == data
  {
    if key :| key in overwrites && key in data && data[key] !in [Null, Undefined, Text("")]
              && data[key] != overwrites[key] {
      assert !IsBlank(Field(data, key));
    }
  }

  /** Data is managed exactly when it is filled at all and some field that is absent, null, undefined
      or empty gets a value that it did not read before. */
  lemma ManagedExactlyWhenUnset(overwrites: Fields, skip: bool, data: Fields)
    ensures UsesManaged(Some(overwrites), skip, data) <==>
            && (skip ==> forall key :: key in overwrites && key in data ==>
                  data[key] in [Null, Undefined, Text(""), overwrites[key]])
            && exists key :: key in overwrites
                 && if key in data then data[key] in [Null, Undefined, Text("")] && overwrites[key] != data[key]
                    else overwrites[key] != Undefined
    ensures !UsesManaged(None, skip, data)
  {
    ManagedExactlyWhenInjected(overwrites, skip, data);
    forall key | key in overwrites && IsBlank(Field(data, key)) && overwrites[key] != Field(data, key)
      ensures if key in data then data[key] in [Null, Undefined, Text("")] && overwrites[key] != data[key]
              else overwrites[key] != Undefined
    {
    }
    if key :| key in overwrites
              && if key in data then data[key] in [Null, Undefined, Text("")] && overwrites[key] != data[key]
                 else overwrites[key] != Undefined {
      assert IsBlank(Field(data, key)) && overwrites[key] != Field(data, key);
    }
    if Customized(overwrites, data) {
      var key :| key in overwrites && !IsBlank(Field(data, key)) && Field(data, key) != overwrites[key];
      assert key in data && data[key] !in [Null, Undefined, Text(""), overwrites[key]];
    }
    if key :| key in overwrites && key in data && data[key] !in [Null, Undefined, Text(""), overwrites[key]] {
      assert !IsBlank(Field(data, key));
    }
  }

  /** Managed exactly when a blank field gets a different value and no customisation is in the way. */
  lemma ManagedExactlyWhenInjected(overwrites: Fields, skip: bool, data: Fields)
    ensures UsesManaged(Some(overwrites), skip, data) <==>
            && !(skip && Customized(overwrites, data))
            && exists key :: key in overwrites && IsBlank(Field(data, key)) && overwrites[key] != Field(data, key)
  {
    var once := Applied(Some(overwrites), skip, data);
    forall key | key in overwrites
      ensures Field(once, key) != Field(data, key) <==>
              && !(skip && Customized(overwrites, data)) && IsBlank(Field(data, key))
              && overwrites[key] != Field(data, key)
    {
    }
  }

  lemma NothingLeftToManage(overwrites: Option<Fields>, skip: bool, data: Fields)
    ensures !UsesManaged(overwrites, skip, Applied(overwrites, skip, data))
  {
    ApplyIsIdempotent(overwrites, skip, data);
  }

  // ---------- the service ----------

  /** One turn of the loop that fills the blank overwritten fields in a copy of the data. */
  method FillField(overwrites: Fields, ghost data: Fields, ghost done: set<string>, key: string, result: Fields)
    returns (filled: Fields)
    requires key in overwrites && key !in done && result == Filled(overwrites, data, done)
    ensures filled == Filled(overwrites, data, done + {key})
  {
    FillOne(overwrites, data, done, key);
    filled := if IsBlank(Field(result, key)) then result[key := overwrites[key]] else result;
  }

  method Fill(overwrites: Fields, data: Fields) returns (result: Fields)
    ensures result == Filled(overwrites, data, overwrites.Keys)
  {
    result := data;
    var keys := overwrites.Keys;
    while keys != {}
      invariant keys <= overwrites.Keys
      invariant result == Filled(overwrites, data, overwrites.Keys - keys)
      decreases |keys|
    {
      var key :| key in keys;
      assert overwrites.Keys - (keys - {key}) == overwrites.Keys - keys + {key};
      result := FillField(overwrites, data, overwrites.Keys - keys, key, result);
      keys := keys - {key};
    }
    assert overwrites.Keys - {} == overwrites.Keys;
  }

  class Overwrites {
    const types: Hierarchy
    const skipTypes: set<TypeName>
    var overwriteData: Table
    var resolvedTypes: seq<TypeName>

    constructor (types: Hierarchy, skipTypes: set<TypeName>)
      ensures this.types == types && this.skipTypes == skipTypes
      ensures overwriteData == map[] && resolvedTypes == []
    {
      this.types := types;
      this.skipTypes := skipTypes;
      overwriteData := map[];
      resolvedTypes := [];
    }

    ghost function State(): Store
      reads this
    {
      Store(overwriteData, resolvedTypes)
    }

    method GetOverwrites(t: TypeName) returns (found: Option<Fields>)
      requires Acyclic(types)
      modifies this`resolvedTypes
      ensures Resolution(found, resolvedTypes)
           == old(Resolve(types, overwriteData, resolvedTypes, t))
      decreases Rank(types, t)
    {
      if t in resolvedTypes {
        return Entry(overwriteData, t);
      }
      if t !in types {
        return None;
      }
      if types[t].None? {
        resolvedTypes := resolvedTypes + [t];
        return Entry(overwriteData, t);
      }
      ghost var all := Resolve(types, overwriteData, resolvedTypes, t);
      var overwrites: Fields := map[];
      var parents := types[t].value;
      assert parents[0..] == parents;
      for i := 0 to |parents|
        invariant ResolveParents(types, overwriteData, old(resolvedTypes), t, parents, map[])
               == ResolveParents(types, overwriteData, resolvedTypes, t, parents[i..], overwrites)
      {
        assert parents[i..][1..] == parents[i + 1..];
        assert parents[i] in Parents(types, t);
        ParentIsAncestor(types, parents[i], t);
        RankDrops(types, parents[i], t);
        var up := GetOverwrites(parents[i]);
        overwrites := overwrites + up.GetOr(map[]);
      }
      assert parents[|parents|..] == [];
      assert overwrites + map[] == overwrites;
      if t in overwriteData {
        overwrites := overwrites + overwriteData[t];
      }
      resolvedTypes := resolvedTypes + [t];
      return Some(overwrites);
    }

    /** Replaces the table and flattens it in place; `keys` is the order its keys are visited in. */
    method SetPlainData(data: Table, keys: seq<TypeName>)
      requires Acyclic(types)
      requires forall k :: k in data <==> k in keys
      modifies this
      ensures State() == FlattenAll(types, Store(data, []), keys)
      ensures SingleInheritance(types) ==>
                forall t :: Read(types, overwriteData, t) == Flat(types, data, t)
    {
      resolvedTypes := [];
      overwriteData := data;
      assert keys[0..] == keys;
      for i := 0 to |keys|
        invariant FlattenAll(types, Store(data, []), keys) == FlattenAll(types, State(), keys[i..])
      {
        assert keys[i..][1..] == keys[i + 1..];
        var overwrites := GetOverwrites(keys[i]);
        if overwrites.Some? && |overwrites.value| > 0 {
          overwriteData := overwriteData[keys[i] := overwrites.value];
        }
      }
      if SingleInheritance(types) {
        forall t ensures Read(types, overwriteData, t) == Flat(types, data, t) {
          LoadThenRead(types, data, keys, t);
        }
      }
    }

    method Get(name: TypeName) returns (found: Option<Fields>)
      requires Acyclic(types)
      ensures found == Read(types, overwriteData, name)
    {
      var parentTypes := GetParentTypes(types, name);
      found := Merge(overwriteData, [name] + parentTypes);
    }

    method ApplyOverwrite(t: TypeName, data: Fields) returns (result: Fields)
      requires Acyclic(types)
      ensures result == Applied(Read(types, overwriteData, t), t in skipTypes, data)
    {
      var overwrites := Get(t);
      if overwrites.None? {
        return data;
      }
      if t in skipTypes && Customized(overwrites.value, data) {
        return data;
      }
      result := Fill(overwrites.value, data);
    }

    method UsesManagedAuth(t: TypeName, data: Fields) returns (managed: bool)
      requires Acyclic(types)
      ensures managed == UsesManaged(Read(types, overwriteData, t), t in skipTypes, data)
    {
      var overwrites := Get(t);
      if overwrites.None? {
        return false;
      }
      var applied := ApplyOverwrite(t, data);
      managed := exists key :: key in overwrites.value && Field(applied, key) != Field(data, key);
    }
  }
}
