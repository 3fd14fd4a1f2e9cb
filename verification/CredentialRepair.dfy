/** Repairing the credential references of a workflow's nodes against the credentials table,
    with two caches that keep the number of table lookups down. */
module CredentialRepair {
  import opened Wrappers

  // ---------- data ----------

  /** What a node stores for a credential type: nothing, an old-style bare name, or an object.
      An object without an id is old-style too. */
  datatype Reference =
    | Missing
    | Legacy(name: string)
    | Details(id: Option<string>, title: string, gatewayManaged: bool)

  datatype Slot = Slot(kind: string, reference: Reference)

  datatype Node = Node(disabled: bool, credentials: Option<seq<Slot>>)

  datatype Row = Row(id: string, name: string, kind: string, projects: set<string>)

  /** The table, the project whose names are searched, and the property names that are refused. */
  datatype World = World(rows: seq<Row>, project: string, unsafeKinds: set<string>)

  /** `id` is the table's primary key. */
  ghost predicate UniqueIds(rows: seq<Row>) {
    forall i, j :: 0 <= i < j < |rows| ==> rows[i].id != rows[j].id
  }

  // ---------- the two lookups, over the same table ----------

  function FindOneBy(rows: seq<Row>, id: string, kind: string): (found: Option<Row>)
    ensures found.Some? ==> found.value in rows && found.value.id == id && found.value.kind == kind
    ensures found.None? ==> forall row :: row in rows ==> row.id != id || row.kind != kind
  {
    if rows == [] then None
    else if rows[0].id == id && rows[0].kind == kind then Some(rows[0])
    else FindOneBy(rows[1..], id, kind)
  }

  function FindByNameAndTypeInProject(rows: seq<Row>, name: string, kind: string, project: string): (found: seq<Row>)
    ensures forall row ::
              row in found <==> row in rows && row.name == name && row.kind == kind && project in row.projects
  {
    if rows == [] then []
    else (if rows[0].name == name && rows[0].kind == kind && project in rows[0].projects then [rows[0]] else [])
         + FindByNameAndTypeInProject(rows[1..], name, kind, project)
  }

  /** The credential of that name and type, if there is exactly one in the project. */
  function OnlyNamed(w: World, name: string, kind: string): Option<Row> {
    var found := FindByNameAndTypeInProject(w.rows, name, kind, w.project);
    if |found| == 1 then Some(found[0]) else None
  }

  lemma OnlyNamedIsInTable(w: World, name: string, kind: string)
    requires UniqueIds(w.rows)
    ensures var row := OnlyNamed(w, name, kind);
            row.Some? ==> FindOneBy(w.rows, row.value.id, kind) == row
  {
    var found := FindByNameAndTypeInProject(w.rows, name, kind, w.project);
    if |found| == 1 {
      assert found[0] in w.rows;
    }
  }

  lemma FoundAgain(w: World, id: string, kind: string)
    requires UniqueIds(w.rows)
    ensures var row := FindOneBy(w.rows, id, kind);
            row.Some? ==> FindOneBy(w.rows, row.value.id, kind) == row
  {
  }

  function Pointing(row: Row): Reference {
    Details(Some(row.id), row.name, false)
  }

  // ---------- resolution without caches ----------

  predicate Handled(w: World, s: Slot) {
    && s.kind !in w.unsafeKinds
    && !s.reference.Missing?
    && !(s.reference.Details? && s.reference.gatewayManaged)
  }

  predicate ByName(w: World, s: Slot) {
    Handled(w, s) && (s.reference.Legacy? || s.reference.id.None?)
  }

  predicate ById(w: World, s: Slot) {
    Handled(w, s) && s.reference.Details? && s.reference.id.Some?
  }

  function NameOf(r: Reference): string
    requires !r.Missing?
  {
    if r.Legacy? then r.name else r.title
  }

  /** By id and type, else by a name that is unique in the project, else unchanged. */
  function CacheFree(w: World, s: Slot): Reference {
    if !Handled(w, s) then
      s.reference
    else if ById(w, s) && FindOneBy(w.rows, s.reference.id.value, s.kind).Some? then
      Pointing(FindOneBy(w.rows, s.reference.id.value, s.kind).value)
    else
      var row := OnlyNamed(w, NameOf(s.reference), s.kind);
      if row.Some? then Pointing(row.value) else s.reference
  }

  /** A bare name and an object that has that name and no id mean the same. */
  function Normal(r: Reference): Reference {
    if r.Legacy? then Details(None, r.name, false) else r
  }

  // ---------- what the cached loop computes, as a function of the slots seen before ----------

  ghost predicate NameSeen(w: World, seen: seq<Slot>, name: string, kind: string) {
    exists i :: 0 <= i < |seen| && ByName(w, seen[i]) && seen[i].kind == kind && NameOf(seen[i].reference) == name
  }

  /** The slot holds this id and type and its name leads nowhere either. */
  predicate Lost(w: World, s: Slot, id: string, kind: string) {
    && ById(w, s) && s.kind == kind && s.reference.id.value == id
    && OnlyNamed(w, s.reference.title, kind).None?
  }

  function FirstLost(w: World, seen: seq<Slot>, id: string, kind: string): Option<Reference> {
    if seen == [] then None
    else if Lost(w, seen[0], id, kind) then Some(seen[0].reference)
    else FirstLost(w, seen[1..], id, kind)
  }

  ghost function Expected(w: World, seen: seq<Slot>, s: Slot): Reference {
    if ByName(w, s) then
      var name := NameOf(s.reference);
      var row := OnlyNamed(w, name, s.kind);
      if row.Some? then Pointing(row.value)
      else if NameSeen(w, seen, name, s.kind) then Details(None, name, false)
      else s.reference
    else if ById(w, s) && FindOneBy(w.rows, s.reference.id.value, s.kind).None?
            && FirstLost(w, seen, s.reference.id.value, s.kind).Some? then
      FirstLost(w, seen, s.reference.id.value, s.kind).value
    else
      CacheFree(w, s)
  }

  ghost function Repair(w: World, seen: seq<Slot>, slots: seq<Slot>): (out: seq<Slot>)
    ensures |out| == |slots|
    decreases |slots|
  {
    if slots == [] then []
    else [Slot(slots[0].kind, Expected(w, seen, slots[0]))] + Repair(w, seen + [slots[0]], slots[1..])
  }

  ghost function Visited(node: Node): seq<Slot> {
    if node.disabled then [] else node.credentials.GetOr([])
  }

  ghost function RepairNodes(w: World, seen: seq<Slot>, nodes: seq<Node>): seq<Node>
    decreases |nodes|
  {
    if nodes == [] then []
    else
      var node := nodes[0];
      [if node.disabled || node.credentials.None? then node
       else node.(credentials := Some(Repair(w, seen, node.credentials.value)))]
      + RepairNodes(w, seen + Visited(node), nodes[1..])
  }

  /** All slots the loops visit, in order. */
  ghost function AllVisited(nodes: seq<Node>): seq<Slot> {
    if nodes == [] then [] else Visited(nodes[0]) + AllVisited(nodes[1..])
  }

  lemma {:induction false} RepairAt(w: World, seen: seq<Slot>, slots: seq<Slot>, k: nat)
    requires k < |slots|
    ensures Repair(w, seen, slots)[k] == Slot(slots[k].kind, Expected(w, seen + slots[..k], slots[k]))
    decreases k
  {
    if k == 0 {
      assert seen + slots[..0] == seen;
    } else {
      RepairAt(w, seen + [slots[0]], slots[1..], k - 1);
      assert seen + slots[..k] == seen + [slots[0]] + slots[1..][..k - 1];
    }
  }

  lemma {:induction false} RepairAppend(w: World, seen: seq<Slot>, a: seq<Slot>, b: seq<Slot>)
    ensures Repair(w, seen, a + b) == Repair(w, seen, a) + Repair(w, seen + a, b)
    decreases |a|
  {
    if a == [] {
      assert a + b == b && seen + a == seen;
    } else {
      assert (a + b)[1..] == a[1..] + b;
      assert seen + a == seen + [a[0]] + a[1..];
      RepairAppend(w, seen + [a[0]], a[1..], b);
    }
  }

  lemma {:induction false} RepairNodesVisits(w: World, seen: seq<Slot>, nodes: seq<Node>)
    ensures AllVisited(RepairNodes(w, seen, nodes)) == Repair(w, seen, AllVisited(nodes))
    decreases |nodes|
  {
    if nodes != [] {
      var rest := RepairNodes(w, seen + Visited(nodes[0]), nodes[1..]);
      RepairNodesVisits(w, seen + Visited(nodes[0]), nodes[1..]);
      RepairAppend(w, seen, Visited(nodes[0]), AllVisited(nodes[1..]));
      assert RepairNodes(w, seen, nodes)[1..] == rest;
    }
  }

  // ---------- FirstLost as a search ----------

  lemma {:induction false} FirstLostAppend(w: World, a: seq<Slot>, b: seq<Slot>, id: string, kind: string)
    ensures FirstLost(w, a + b, id, kind)
         == if FirstLost(w, a, id, kind).Some? then FirstLost(w, a, id, kind) else FirstLost(w, b, id, kind)
  {
    if a == [] {
      assert a + b == b;
    } else {
      assert (a + b)[1..] == a[1..] + b;
      FirstLostAppend(w, a[1..], b, id, kind);
    }
  }

  lemma {:induction false} FirstLostIsAt(w: World, seen: seq<Slot>, id: string, kind: string) returns (i: nat)
    requires FirstLost(w, seen, id, kind).Some?
    ensures i < |seen| && Lost(w, seen[i], id, kind)
    ensures forall d :: 0 <= d < i ==> !Lost(w, seen[d], id, kind)
    ensures FirstLost(w, seen, id, kind) == Some(seen[i].reference)
  {
    if Lost(w, seen[0], id, kind) {
      i := 0;
    } else {
      i := FirstLostIsAt(w, seen[1..], id, kind);
      i := i + 1;
    }
  }

  lemma {:induction false} LostIsFound(w: World, seen: seq<Slot>, id: string, kind: string, i: nat)
    requires i < |seen| && Lost(w, seen[i], id, kind)
    ensures FirstLost(w, seen, id, kind).Some?
  {
    if !Lost(w, seen[0], id, kind) {
      LostIsFound(w, seen[1..], id, kind, i - 1);
    }
  }

  // ---------- agreement with cache-free resolution ----------

  /** Every visited slot ends up as cache-free resolution would leave it, up to an unresolved
      bare name being written as an object. */
  ghost predicate Agrees(w: World, slots: seq<Slot>) {
    forall k :: 0 <= k < |slots| ==>
      Normal(Repair(w, [], slots)[k].reference) == Normal(CacheFree(w, slots[k]))
  }

  /** Whenever an earlier slot's id and name both lead nowhere, every later slot with the same
      type and id carries the same name. */
  ghost predicate NamesAreStable(w: World, slots: seq<Slot>) {
    forall i, j :: 0 <= i < j < |slots| && ById(w, slots[i]) && ById(w, slots[j])
        && slots[i].kind == slots[j].kind && slots[i].reference.id == slots[j].reference.id
        && FindOneBy(w.rows, slots[i].reference.id.value, slots[i].kind).None?
        && OnlyNamed(w, slots[i].reference.title, slots[i].kind).None?
      ==> slots[i].reference.title == slots[j].reference.title
  }

  lemma StableSlotAgrees(w: World, slots: seq<Slot>, k: nat)
    requires NamesAreStable(w, slots) && k < |slots|
    ensures Normal(Expected(w, slots[..k], slots[k])) == Normal(CacheFree(w, slots[k]))
  {
    var s := slots[k];
    if ById(w, s) && FindOneBy(w.rows, s.reference.id.value, s.kind).None?
       && FirstLost(w, slots[..k], s.reference.id.value, s.kind).Some? {
      var i := FirstLostIsAt(w, slots[..k], s.reference.id.value, s.kind);
      assert slots[..k][i] == slots[i];
    }
  }

  /** The cached repair agrees with cache-free resolution exactly when names are stable. */
  lemma AgreesExactlyWhenStable(w: World, slots: seq<Slot>)
    ensures Agrees(w, slots) <==> NamesAreStable(w, slots)
  {
    if NamesAreStable(w, slots) {
      forall k | 0 <= k < |slots|
        ensures Normal(Repair(w, [], slots)[k].reference) == Normal(CacheFree(w, slots[k]))
      {
        RepairAt(w, [], slots, k);
        assert [] + slots[..k] == slots[..k];
        StableSlotAgrees(w, slots, k);
      }
    }
    if Agrees(w, slots) {
      forall i, j | 0 <= i < j < |slots| && ById(w, slots[i]) && ById(w, slots[j])
                    && slots[i].kind == slots[j].kind && slots[i].reference.id == slots[j].reference.id
                    && FindOneBy(w.rows, slots[i].reference.id.value, slots[i].kind).None?
                    && OnlyNamed(w, slots[i].reference.title, slots[i].kind).None?
        ensures slots[i].reference.title == slots[j].reference.title
      {
        AgreeingTakesFirstLost(w, slots, i, i);
        AgreeingTakesFirstLost(w, slots, i, j);
      }
    }
  }

  /** The same, for a whole workflow. */
  lemma WorkflowAgreesExactlyWhenStable(w: World, nodes: seq<Node>)
    ensures |AllVisited(RepairNodes(w, [], nodes))| == |AllVisited(nodes)|
    ensures (forall k :: 0 <= k < |AllVisited(nodes)| ==>
               Normal(AllVisited(RepairNodes(w, [], nodes))[k].reference) == Normal(CacheFree(w, AllVisited(nodes)[k])))
       <==> NamesAreStable(w, AllVisited(nodes))
  {
    RepairNodesVisits(w, [], nodes);
    AgreesExactlyWhenStable(w, AllVisited(nodes));
  }

  /** If slot `i` is lost and slot `k` is at or after it with the same type and id, agreement
      forces slot `k` to carry the name of the first lost slot. */
  lemma AgreeingTakesFirstLost(w: World, slots: seq<Slot>, i: nat, k: nat)
    requires Agrees(w, slots) && i <= k < |slots| && ById(w, slots[i]) && ById(w, slots[k])
    requires slots[i].kind == slots[k].kind && slots[i].reference.id == slots[k].reference.id
    requires FindOneBy(w.rows, slots[i].reference.id.value, slots[i].kind).None?
    requires OnlyNamed(w, slots[i].reference.title, slots[i].kind).None?
    ensures FirstLost(w, slots, slots[i].reference.id.value, slots[i].kind) == Some(slots[k].reference)
  {
    var id, kind := slots[i].reference.id.value, slots[i].kind;
    assert slots == slots[..k] + slots[k..];
    FirstLostAppend(w, slots[..k], slots[k..], id, kind);
    if FirstLost(w, slots[..k], id, kind).Some? {
      AgreeingRepeatsLost(w, slots, k, id, kind);
    } else if i < k {
      LostIsFound(w, slots[..k], id, kind, i);
      assert false;
    }
  }

  /** Slot `k` comes after a lost one with its type and id: the repair gives it that reference, and
      agreement means that it had it. */
  lemma AgreeingRepeatsLost(w: World, slots: seq<Slot>, k: nat, id: string, kind: string)
    requires Agrees(w, slots) && k < |slots| && ById(w, slots[k])
    requires slots[k].kind == kind && slots[k].reference.id.value == id
    requires FindOneBy(w.rows, id, kind).None? && FirstLost(w, slots[..k], id, kind).Some?
    ensures FirstLost(w, slots[..k], id, kind) == Some(slots[k].reference)
  {
    RepairAt(w, [], slots, k);
    assert [] + slots[..k] == slots[..k];
    var f := FirstLostIsAt(w, slots[..k], id, kind);
    assert Normal(Repair(w, [], slots)[k].reference) == Normal(CacheFree(w, slots[k]));
    OnlyNamedHasKind(w, slots[k].reference.title, kind);
  }

  lemma OnlyNamedHasKind(w: World, name: string, kind: string)
    ensures var row := OnlyNamed(w, name, kind);
            row.Some? ==> row.value in w.rows && row.value.kind == kind && row.value.name == name
  {
    var found := FindByNameAndTypeInProject(w.rows, name, kind, w.project);
    if |found| == 1 {
      assert found[0] in found;
    }
  }

  // ---------- a second pass changes nothing ----------

  /** A repaired slot with an unknown id comes from a slot with that very id. */
  lemma RepairKeepsLost(w: World, seen: seq<Slot>, s: Slot, id: string, kind: string)
    requires UniqueIds(w.rows) && FindOneBy(w.rows, id, kind).None?
    ensures var out := Slot(s.kind, Expected(w, seen, s));
            var found := FirstLost(w, seen, id, kind);
            && (Lost(w, out, id, kind) ==> found == Some(out.reference) || (Lost(w, s, id, kind) && out == s))
            && (Lost(w, s, id, kind) ==> Lost(w, out, id, kind))
  {
    var out := Expected(w, seen, s);
    if ById(w, s) && FindOneBy(w.rows, s.reference.id.value, s.kind).None?
       && FirstLost(w, seen, s.reference.id.value, s.kind).Some? {
      var i := FirstLostIsAt(w, seen, s.reference.id.value, s.kind);
    } else if Handled(w, s) {
      OnlyNamedIsInTable(w, NameOf(s.reference), s.kind);
      if ById(w, s) {
        FoundAgain(w, s.reference.id.value, s.kind);
      }
    }
  }

  /** The search for a lost slot gives the same before and after the repair. */
  lemma {:induction false} RepairKeepsFirstLost(w: World, slots: seq<Slot>, id: string, kind: string)
    requires UniqueIds(w.rows) && FindOneBy(w.rows, id, kind).None?
    ensures FirstLost(w, Repair(w, [], slots), id, kind) == FirstLost(w, slots, id, kind)
  {
    if slots != [] {
      var n := |slots| - 1;
      var before, s := slots[..n], slots[n];
      assert slots == before + [s];
      RepairAppend(w, [], before, [s]);
      assert [] + before == before;
      RepairAt(w, before, [s], 0);
      assert before + [s][..0] == before;
      var out := Slot(s.kind, Expected(w, before, s));
      assert Repair(w, before, [s]) == [out];
      RepairKeepsFirstLost(w, before, id, kind);
      FirstLostAppend(w, before, [s], id, kind);
      FirstLostAppend(w, Repair(w, [], before), [out], id, kind);
      RepairKeepsLost(w, before, s, id, kind);
    }
  }

  lemma RepairKeepsNames(w: World, slots: seq<Slot>, name: string, kind: string)
    requires OnlyNamed(w, name, kind).None?
    ensures NameSeen(w, Repair(w, [], slots), name, kind) ==> NameSeen(w, slots, name, kind)
  {
    var out := Repair(w, [], slots);
    if NameSeen(w, out, name, kind) {
      var i :| 0 <= i < |out| && ByName(w, out[i]) && out[i].kind == kind && NameOf(out[i].reference) == name;
      RepairAt(w, [], slots, i);
      assert [] + slots[..i] == slots[..i];
      var s := slots[i];
      if ById(w, s) && FindOneBy(w.rows, s.reference.id.value, s.kind).None?
         && FirstLost(w, slots[..i], s.reference.id.value, s.kind).Some? {
        var f := FirstLostIsAt(w, slots[..i], s.reference.id.value, s.kind);
      }
      assert ByName(w, s) && NameOf(s.reference) == name;
    }
  }

  lemma SecondPassOnSlot(w: World, seen: seq<Slot>, s: Slot)
    requires UniqueIds(w.rows)
    ensures var out := Slot(s.kind, Expected(w, seen, s));
            Expected(w, Repair(w, [], seen), out) == out.reference
  {
    var out := Slot(s.kind, Expected(w, seen, s));
    if Handled(w, s) {
      OnlyNamedIsInTable(w, NameOf(s.reference), s.kind);
      if ById(w, s) {
        var id := s.reference.id.value;
        FoundAgain(w, id, s.kind);
        if FindOneBy(w.rows, id, s.kind).None? {
          RepairKeepsFirstLost(w, seen, id, s.kind);
          if FirstLost(w, seen, id, s.kind).Some? {
            var f := FirstLostIsAt(w, seen, id, s.kind);
          }
        }
      } else if OnlyNamed(w, NameOf(s.reference), s.kind).None? {
        RepairKeepsNames(w, seen, NameOf(s.reference), s.kind);
      }
    }
  }

  lemma {:induction false} SecondPassOnSlots(w: World, seen: seq<Slot>, slots: seq<Slot>)
    requires UniqueIds(w.rows)
    ensures Repair(w, Repair(w, [], seen), Repair(w, seen, slots)) == Repair(w, seen, slots)
    decreases |slots|
  {
    if slots != [] {
      var s := slots[0];
      SecondPassOnSlot(w, seen, s);
      SecondPassOnSlots(w, seen + [s], slots[1..]);
      RepairAppend(w, [], seen, [s]);
      assert [] + seen == seen;
      RepairAt(w, seen, [s], 0);
      assert seen + [s][..0] == seen;
      assert Repair(w, seen, [s]) == [Slot(s.kind, Expected(w, seen, s))];
      assert Repair(w, seen, slots)[1..] == Repair(w, seen + [s], slots[1..]);
    }
  }

  lemma {:induction false} SecondPassFrom(w: World, seen: seq<Slot>, nodes: seq<Node>)
    requires UniqueIds(w.rows)
    ensures RepairNodes(w, Repair(w, [], seen), RepairNodes(w, seen, nodes)) == RepairNodes(w, seen, nodes)
    decreases |nodes|
  {
    if nodes != [] {
      var visited := Visited(nodes[0]);
      SecondPassOnSlots(w, seen, visited);
      RepairAppend(w, [], seen, visited);
      assert [] + seen == seen;
      SecondPassFrom(w, seen + visited, nodes[1..]);
      var once := RepairNodes(w, seen, nodes);
      assert once[1..] == RepairNodes(w, seen + visited, nodes[1..]);
      assert Visited(once[0]) == Repair(w, seen, visited);
    }
  }

  /** Repairing a repaired workflow changes nothing, whatever the names and ids in it. */
  lemma SecondPassChangesNothing(w: World, nodes: seq<Node>)
    requires UniqueIds(w.rows)
    ensures var once := RepairNodes(w, [], nodes);
            RepairNodes(w, [], once) == once
  {
    SecondPassFrom(w, [], nodes);
  }

  // ---------- what a reference becomes, read off the table's rows ----------

  predicate Named(row: Row, name: string, kind: string, project: string) {
    row.name == name && row.kind == kind && project in row.projects
  }

  /** Row `i` is the only one of the project with that name and type. */
  ghost predicate OnlyOneNamed(w: World, name: string, kind: string, i: int) {
    && 0 <= i < |w.rows| && Named(w.rows[i], name, kind, w.project)
    && forall j :: 0 <= j < |w.rows| && Named(w.rows[j], name, kind, w.project) ==> j == i
  }

  lemma {:induction false} FindsNoneOrMore(rows: seq<Row>, name: string, kind: string, project: string)
    ensures var found := FindByNameAndTypeInProject(rows, name, kind, project);
            && (found == [] <==> forall i :: 0 <= i < |rows| ==> !Named(rows[i], name, kind, project))
            && (|found| <= 1 ==>
                  forall i, j :: 0 <= i < j < |rows| ==>
                    !Named(rows[i], name, kind, project) || !Named(rows[j], name, kind, project))
  {
    if rows != [] {
      var rest := rows[1..];
      FindsNoneOrMore(rest, name, kind, project);
      assert forall i :: 1 <= i < |rows| ==> rows[i] == rest[i - 1];
      assert forall i :: 0 <= i < |rest| ==> rest[i] == rows[i + 1];
    }
  }

  lemma {:induction false} FindsTheOne(rows: seq<Row>, name: string, kind: string, project: string) returns (i: nat)
    requires |FindByNameAndTypeInProject(rows, name, kind, project)| == 1
    ensures i < |rows| && Named(rows[i], name, kind, project)
    ensures FindByNameAndTypeInProject(rows, name, kind, project) == [rows[i]]
    ensures forall j :: 0 <= j < |rows| && Named(rows[j], name, kind, project) ==> j == i
  {
    var rest := rows[1..];
    assert forall j :: 1 <= j < |rows| ==> rows[j] == rest[j - 1];
    if Named(rows[0], name, kind, project) {
      FindsNoneOrMore(rest, name, kind, project);
      i := 0;
    } else {
      i := FindsTheOne(rest, name, kind, project);
      i := i + 1;
    }
  }

  lemma OnlyNamedExactly(w: World, name: string, kind: string)
    ensures forall i :: OnlyOneNamed(w, name, kind, i) ==> OnlyNamed(w, name, kind) == Some(w.rows[i])
    ensures (forall i :: !OnlyOneNamed(w, name, kind, i)) ==> OnlyNamed(w, name, kind).None?
  {
    if |FindByNameAndTypeInProject(w.rows, name, kind, w.project)| == 1 {
      var k := FindsTheOne(w.rows, name, kind, w.project);
      assert OnlyOneNamed(w, name, kind, k);
    } else {
      forall i | 0 <= i < |w.rows| ensures !OnlyOneNamed(w, name, kind, i) {
        if OnlyOneNamed(w, name, kind, i) {
          OneIsFound(w.rows, name, kind, w.project, i);
        }
      }
    }
  }

  lemma {:induction false} OneIsFound(rows: seq<Row>, name: string, kind: string, project: string, i: nat)
    requires i < |rows| && Named(rows[i], name, kind, project)
    requires forall j :: 0 <= j < |rows| && Named(rows[j], name, kind, project) ==> j == i
    ensures |FindByNameAndTypeInProject(rows, name, kind, project)| == 1
  {
    var rest := rows[1..];
    assert forall j :: 0 <= j < |rest| ==> rest[j] == rows[j + 1];
    if i == 0 {
      FindsNoneOrMore(rest, name, kind, project);
    } else {
      OneIsFound(rest, name, kind, project, i - 1);
    }
  }

  /** The program looks at the slot, and it stores a name without an id. */
  predicate StoresName(w: World, s: Slot, name: string) {
    && s.kind !in w.unsafeKinds
    && (s.reference == Legacy(name) || s.reference == Details(None, name, false))
  }

  /** The program looks at the slot, and it stores an id. */
  predicate StoresId(w: World, s: Slot, id: string) {
    && s.kind !in w.unsafeKinds
    && s.reference.Details? && s.reference.id == Some(id) && !s.reference.gatewayManaged
  }

  ghost predicate SomeOneNamed(w: World, name: string, kind: string) {
    exists i :: OnlyOneNamed(w, name, kind, i)
  }

  /** A slot with an unknown id, whose name does not lead to exactly one credential either. */
  ghost predicate LeadsNowhere(w: World, s: Slot, id: string, kind: string) {
    StoresId(w, s, id) && s.kind == kind && !SomeOneNamed(w, s.reference.title, kind)
  }

  /** In a pass over any slots, a bare name becomes the credential that alone has the name and the
      type in the project; when there is none, or more than one, it stays the same bare name, written
      as an object if an earlier slot stores it too. */
  lemma BareNameBecomes(w: World, slots: seq<Slot>, k: nat, name: string)
    requires k < |slots| && StoresName(w, slots[k], name)
    ensures forall i :: OnlyOneNamed(w, name, slots[k].kind, i) ==>
              Repair(w, [], slots)[k].reference == Details(Some(w.rows[i].id), w.rows[i].name, false)
    ensures !SomeOneNamed(w, name, slots[k].kind) ==>
              && StoresName(w, Repair(w, [], slots)[k], name)
              && Repair(w, [], slots)[k].reference
                 == if exists e :: 0 <= e < k && slots[e].kind == slots[k].kind && StoresName(w, slots[e], name)
                    then Details(None, name, false) else slots[k].reference
  {
    var before, kind := slots[..k], slots[k].kind;
    RepairAt(w, [], slots, k);
    assert [] + before == before;
    OnlyNamedExactly(w, name, kind);
    NameSeenBefore(w, slots, k, name, kind);
  }

  lemma NameSeenBefore(w: World, slots: seq<Slot>, k: nat, name: string, kind: string)
    requires k <= |slots|
    ensures NameSeen(w, slots[..k], name, kind) <==>
            exists e :: 0 <= e < k && slots[e].kind == kind && StoresName(w, slots[e], name)
  {
    assert forall e :: 0 <= e < k ==> slots[..k][e] == slots[e];
    assert forall s: Slot :: StoresName(w, s, name) <==> ByName(w, s) && NameOf(s.reference) == name;
  }

  /** In particular, two credentials of the name leave the name as it is. */
  lemma AmbiguousNameStays(w: World, slots: seq<Slot>, k: nat, name: string, i: nat, j: nat)
    requires k < |slots| && StoresName(w, slots[k], name) && i < j < |w.rows|
    requires Named(w.rows[i], name, slots[k].kind, w.project) && Named(w.rows[j], name, slots[k].kind, w.project)
    ensures StoresName(w, Repair(w, [], slots)[k], name)
  {
    BareNameBecomes(w, slots, k, name);
  }

  /** A known id, of the right type, becomes the credential that has it, under that one's name. */
  lemma KnownIdBecomes(w: World, slots: seq<Slot>, k: nat, id: string, i: nat)
    requires UniqueIds(w.rows) && k < |slots| && StoresId(w, slots[k], id)
    requires i < |w.rows| && w.rows[i].id == id && w.rows[i].kind == slots[k].kind
    ensures Repair(w, [], slots)[k].reference == Details(Some(id), w.rows[i].name, false)
  {
    RepairAt(w, [], slots, k);
    assert [] + slots[..k] == slots[..k];
    assert w.rows[i] in w.rows;
  }

  /** An unknown id, when no earlier slot has led nowhere with it: its name decides, and when the name
      does not lead to exactly one credential, the reference is left as it is. */
  lemma UnknownIdBecomes(w: World, slots: seq<Slot>, k: nat, id: string)
    requires k < |slots| && StoresId(w, slots[k], id)
    requires forall row :: row in w.rows ==> row.id != id || row.kind != slots[k].kind
    requires forall e :: 0 <= e < k ==> !LeadsNowhere(w, slots[e], id, slots[k].kind)
    ensures forall i :: OnlyOneNamed(w, slots[k].reference.title, slots[k].kind, i) ==>
              Repair(w, [], slots)[k].reference == Details(Some(w.rows[i].id), w.rows[i].name, false)
    ensures !SomeOneNamed(w, slots[k].reference.title, slots[k].kind) ==> Repair(w, [], slots)[k] == slots[k]
  {
    RepairAt(w, [], slots, k);
    assert [] + slots[..k] == slots[..k];
    OnlyNamedExactly(w, slots[k].reference.title, slots[k].kind);
    FirstLostReadOff(w, slots[..k], id, slots[k].kind, k);
  }

  lemma LostExactlyWhen(w: World, s: Slot, id: string, kind: string)
    ensures Lost(w, s, id, kind) <==> LeadsNowhere(w, s, id, kind)
  {
    if StoresId(w, s, id) {
      OnlyNamedExactly(w, s.reference.title, kind);
    }
  }

  lemma {:induction false} FirstLostReadOff(w: World, seen: seq<Slot>, id: string, kind: string, e: nat)
    requires e <= |seen| && (e < |seen| ==> LeadsNowhere(w, seen[e], id, kind))
    requires forall d :: 0 <= d < e ==> !LeadsNowhere(w, seen[d], id, kind)
    ensures FirstLost(w, seen, id, kind) == if e < |seen| then Some(seen[e].reference) else None
  {
    if seen != [] {
      LostExactlyWhen(w, seen[0], id, kind);
      if e > 0 {
        FirstLostReadOff(w, seen[1..], id, kind, e - 1);
      }
    }
  }

  /** An unknown id after earlier slots that led nowhere with it: it becomes what the first of them
      stores. */
  lemma UnknownIdRepeats(w: World, slots: seq<Slot>, k: nat, id: string, e: nat)
    requires e < k < |slots| && StoresId(w, slots[k], id)
    requires forall row :: row in w.rows ==> row.id != id || row.kind != slots[k].kind
    requires LeadsNowhere(w, slots[e], id, slots[k].kind)
    requires forall d :: 0 <= d < e ==> !LeadsNowhere(w, slots[d], id, slots[k].kind)
    ensures Repair(w, [], slots)[k].reference == slots[e].reference
  {
    RepairAt(w, [], slots, k);
    assert [] + slots[..k] == slots[..k];
    FirstLostReadOff(w, slots[..k], id, slots[k].kind, e);
  }

  /** Types that are refused, empty entries and credentials that the gateway manages stay. */
  lemma OthersStay(w: World, slots: seq<Slot>, k: nat)
    requires k < |slots|
    requires || slots[k].kind in w.unsafeKinds || slots[k].reference == Missing
             || (slots[k].reference.Details? && slots[k].reference.gatewayManaged)
    ensures Repair(w, [], slots)[k] == slots[k]
  {
    RepairAt(w, [], slots, k);
  }

  /** The repair of a workflow is one pass over the slots of all enabled nodes, in their order; what
      is not such a slot stays. */
  lemma {:induction false} NodeBecomes(w: World, seen: seq<Slot>, nodes: seq<Node>, n: nat)
    requires n < |nodes|
    ensures var out := RepairNodes(w, seen, nodes);
            && |out| == |nodes|
            && (nodes[n].disabled || nodes[n].credentials.None? ==> out[n] == nodes[n])
            && (!nodes[n].disabled && nodes[n].credentials.Some? ==>
                  out[n] == Node(false, Some(Repair(w, seen + AllVisited(nodes[..n]), nodes[n].credentials.value))))
    decreases |nodes|
  {
    RepairNodesLength(w, seen + Visited(nodes[0]), nodes[1..]);
    if n == 0 {
      assert seen + AllVisited(nodes[..0]) == seen;
    } else {
      NodeBecomes(w, seen + Visited(nodes[0]), nodes[1..], n - 1);
      assert nodes[..n][1..] == nodes[1..][..n - 1];
      assert seen + AllVisited(nodes[..n]) == seen + Visited(nodes[0]) + AllVisited(nodes[1..][..n - 1]);
    }
  }

  lemma {:induction false} RepairNodesLength(w: World, seen: seq<Slot>, nodes: seq<Node>)
    ensures |RepairNodes(w, seen, nodes)| == |nodes|
    decreases |nodes|
  {
    if nodes != [] {
      RepairNodesLength(w, seen + Visited(nodes[0]), nodes[1..]);
    }
  }

  /** Slot `j` of node `n` is slot number `|AllVisited(nodes[..n])| + j` of that pass. */
  lemma SlotIsInPass(w: World, nodes: seq<Node>, n: nat, j: nat)
    requires n < |nodes| && !nodes[n].disabled && nodes[n].credentials.Some? && j < |nodes[n].credentials.value|
    ensures var at := |AllVisited(nodes[..n])| + j;
            && at < |AllVisited(nodes)| && AllVisited(nodes)[at] == nodes[n].credentials.value[j]
            && |RepairNodes(w, [], nodes)| == |nodes| && RepairNodes(w, [], nodes)[n].credentials.Some?
            && |RepairNodes(w, [], nodes)[n].credentials.value| == |nodes[n].credentials.value|
            && RepairNodes(w, [], nodes)[n].credentials.value[j] == Repair(w, [], AllVisited(nodes))[at]
  {
    var before, own := AllVisited(nodes[..n]), nodes[n].credentials.value;
    NodeBecomes(w, [], nodes, n);
    VisitedBefore(nodes, n);
    assert [] + before == before;
    PrefixAt(before, own, AllVisited(nodes), j);
    SamePass(w, before, own, j, AllVisited(nodes), |before| + j, before + own[..j], own[j]);
  }

  /** What a slot becomes depends on the slots before it, however they are cut. */
  lemma SamePass(w: World, before: seq<Slot>, own: seq<Slot>, j: nat, all: seq<Slot>, at: nat, now: seq<Slot>, s: Slot)
    requires j < |own| && own[j] == s && now == before + own[..j]
    requires at < |all| && all[at] == s && now == [] + all[..at]
    ensures Repair(w, [], all)[at] == Repair(w, before, own)[j]
  {
    RepairAfter(w, before, own, j, now, s);
    RepairAfter(w, [], all, at, now, s);
  }

  lemma RepairAfter(w: World, seen: seq<Slot>, slots: seq<Slot>, k: nat, now: seq<Slot>, s: Slot)
    requires k < |slots| && slots[k] == s && now == seen + slots[..k]
    ensures Repair(w, seen, slots)[k] == Slot(s.kind, Expected(w, now, s))
  {
    RepairAt(w, seen, slots, k);
  }

  lemma PrefixAt(before: seq<Slot>, own: seq<Slot>, all: seq<Slot>, j: nat)
    requires before + own <= all && j < |own|
    ensures [] + all[..|before| + j] == before + own[..j] && all[|before| + j] == own[j]
  {
    var n := |before + own|;
    assert all[..n] == before + own && all[..|before| + j] == all[..n][..|before| + j];
  }

  lemma {:induction false} VisitedBefore(nodes: seq<Node>, n: nat)
    requires n < |nodes|
    ensures AllVisited(nodes[..n]) + Visited(nodes[n]) <= AllVisited(nodes)
  {
    if n > 0 {
      VisitedBefore(nodes[1..], n - 1);
      assert nodes[..n][1..] == nodes[1..][..n - 1];
    }
  }

  // ---------- the program's loops ----------

  type Cache = map<(string, string), Reference>

  ghost predicate NameCacheFits(w: World, seen: seq<Slot>, byName: Cache) {
    forall kind, name ::
      && ((kind, name) in byName <==> NameSeen(w, seen, name, kind))
      && ((kind, name) in byName ==>
            byName[(kind, name)] == if OnlyNamed(w, name, kind).Some? then Pointing(OnlyNamed(w, name, kind).value)
                                    else Details(None, name, false))
  }

  /** A cached id leads to its row, or, when there is none, to the first lost slot. */
  ghost predicate IdCacheFits(w: World, seen: seq<Slot>, byId: Cache) {
    forall kind, id ::
      var row := FindOneBy(w.rows, id, kind);
      var lost := FirstLost(w, seen, id, kind);
      && ((kind, id) in byId ==>
            if row.Some? then byId[(kind, id)] == Pointing(row.value) else lost == Some(byId[(kind, id)]))
      && (row.None? && lost.Some? ==> (kind, id) in byId)
  }

  lemma SeenOneMore(w: World, seen: seq<Slot>, s: Slot)
    ensures forall name, kind :: NameSeen(w, seen + [s], name, kind) <==>
              NameSeen(w, seen, name, kind) || (ByName(w, s) && s.kind == kind && NameOf(s.reference) == name)
    ensures forall id, kind :: FirstLost(w, seen + [s], id, kind) ==
              if FirstLost(w, seen, id, kind).Some? then FirstLost(w, seen, id, kind)
              else if Lost(w, s, id, kind) then Some(s.reference) else None
  {
    forall name, kind
      ensures NameSeen(w, seen + [s], name, kind) <==>
              NameSeen(w, seen, name, kind) || (ByName(w, s) && s.kind == kind && NameOf(s.reference) == name)
    {
      NameSeenOneMore(w, seen, s, name, kind);
    }
    forall id, kind
      ensures FirstLost(w, seen + [s], id, kind) ==
              if FirstLost(w, seen, id, kind).Some? then FirstLost(w, seen, id, kind)
              else if Lost(w, s, id, kind) then Some(s.reference) else None
    {
      FirstLostAppend(w, seen, [s], id, kind);
    }
  }

  lemma NameSeenOneMore(w: World, seen: seq<Slot>, s: Slot, name: string, kind: string)
    ensures NameSeen(w, seen + [s], name, kind) <==>
            NameSeen(w, seen, name, kind) || (ByName(w, s) && s.kind == kind && NameOf(s.reference) == name)
  {
    var more := seen + [s];
    if NameSeen(w, seen, name, kind) {
      var i :| 0 <= i < |seen| && ByName(w, seen[i]) && seen[i].kind == kind && NameOf(seen[i].reference) == name;
      assert more[i] == seen[i];
    }
    if ByName(w, s) && s.kind == kind && NameOf(s.reference) == name {
      assert more[|seen|] == s;
    }
  }

  /** One turn of the inner loop. */
  method RepairSlot(w: World, ghost seen: seq<Slot>, s: Slot, byName: Cache, byId: Cache)
    returns (reference: Reference, byName': Cache, byId': Cache)
    requires UniqueIds(w.rows) && NameCacheFits(w, seen, byName) && IdCacheFits(w, seen, byId)
    ensures reference == Expected(w, seen, s)
    ensures NameCacheFits(w, seen + [s], byName') && IdCacheFits(w, seen + [s], byId')
  {
    SeenOneMore(w, seen, s);
    reference, byName', byId' := s.reference, byName, byId;
    if s.kind in w.unsafeKinds {
      return;
    }
    if s.reference.Missing? {
      return;
    }
    if s.reference.Details? && s.reference.gatewayManaged {
      return;
    }
    if s.reference.Legacy? || s.reference.id.None? {
      var name := NameOf(s.reference);
      if (s.kind, name) !in byName {
        var found := FindByNameAndTypeInProject(w.rows, name, s.kind, w.project);
        if |found| == 1 {
          reference := Details(Some(found[0].id), found[0].name, false);
          byName' := byName[(s.kind, name) := reference];
          return;
        }
        byName' := byName[(s.kind, name) := Details(None, name, false)];
      } else {
        reference := byName[(s.kind, name)];
      }
      return;
    }
    var id := s.reference.id.value;
    if (s.kind, id) !in byId {
      var row := FindOneBy(w.rows, id, s.kind);
      if row.Some? {
        reference := Details(Some(row.value.id), row.value.name, false);
        byId' := byId[(s.kind, id) := reference];
        return;
      }
      var found := FindByNameAndTypeInProject(w.rows, s.reference.title, s.kind, w.project);
      OnlyNamedIsInTable(w, s.reference.title, s.kind);
      if |found| == 1 {
        reference := Details(Some(found[0].id), found[0].name, false);
        byId' := byId[(s.kind, found[0].id) := reference];
        return;
      }
      byId' := byId[(s.kind, id) := s.reference];
      return;
    }
    reference := byId[(s.kind, id)];
  }

  lemma SlotStep(w: World, seen: seq<Slot>, slots: seq<Slot>, j: nat, before: seq<Slot>, reference: Reference)
    requires j < |slots| && reference == Expected(w, seen, slots[j])
    ensures before + Repair(w, seen, slots[j..])
         == before + [Slot(slots[j].kind, reference)] + Repair(w, seen + [slots[j]], slots[j + 1..])
  {
    assert slots[j..][1..] == slots[j + 1..];
    assert Repair(w, seen, slots[j..])
        == [Slot(slots[j].kind, reference)] + Repair(w, seen + [slots[j]], slots[j + 1..]);
  }

  /** The inner loop: the slots of one node. */
  method RepairSlots(w: World, ghost seen: seq<Slot>, slots: seq<Slot>, byName: Cache, byId: Cache)
    returns (out: seq<Slot>, byName': Cache, byId': Cache)
    requires UniqueIds(w.rows) && NameCacheFits(w, seen, byName) && IdCacheFits(w, seen, byId)
    ensures out == Repair(w, seen, slots)
    ensures NameCacheFits(w, seen + slots, byName') && IdCacheFits(w, seen + slots, byId')
  {
    out, byName', byId' := [], byName, byId;
    ghost var now := seen;
    assert slots[0..] == slots;
    for j := 0 to |slots|
      invariant now == seen + slots[..j]
      invariant NameCacheFits(w, now, byName') && IdCacheFits(w, now, byId')
      invariant out + Repair(w, now, slots[j..]) == Repair(w, seen, slots)
    {
      var reference;
      reference, byName', byId' := RepairSlot(w, now, slots[j], byName', byId');
      SlotStep(w, now, slots, j, out, reference);
      out, now := out + [Slot(slots[j].kind, reference)], now + [slots[j]];
      assert slots[..j + 1] == slots[..j] + [slots[j]];
    }
    assert slots[..|slots|] == slots && slots[|slots|..] == [];
  }

  lemma NodeStep(w: World, seen: seq<Slot>, nodes: seq<Node>, i: nat, before: seq<Node>, node: Node)
    requires i < |nodes|
    requires node == if nodes[i].disabled || nodes[i].credentials.None? then nodes[i]
                     else nodes[i].(credentials := Some(Repair(w, seen, nodes[i].credentials.value)))
    ensures before + RepairNodes(w, seen, nodes[i..])
         == before + [node] + RepairNodes(w, seen + Visited(nodes[i]), nodes[i + 1..])
  {
    assert nodes[i..][1..] == nodes[i + 1..];
    assert RepairNodes(w, seen, nodes[i..]) == [node] + RepairNodes(w, seen + Visited(nodes[i]), nodes[i + 1..]);
  }

  /** The outer loop: disabled nodes and nodes without credentials are left alone. */
  method ReplaceInvalidCredentials(w: World, nodes: seq<Node>) returns (repaired: seq<Node>)
    requires UniqueIds(w.rows)
    ensures repaired == RepairNodes(w, [], nodes)
  {
    var byName: Cache, byId: Cache := map[], map[];
    ghost var seen: seq<Slot> := [];
    repaired := [];
    assert nodes[0..] == nodes;
    for i := 0 to |nodes|
      invariant NameCacheFits(w, seen, byName) && IdCacheFits(w, seen, byId)
      invariant repaired + RepairNodes(w, seen, nodes[i..]) == RepairNodes(w, [], nodes)
    {
      var node;
      node, byName, byId := RepairNode(w, seen, nodes[i], byName, byId);
      NodeStep(w, seen, nodes, i, repaired, node);
      repaired, seen := repaired + [node], seen + Visited(nodes[i]);
    }
  }

  method RepairNode(w: World, ghost seen: seq<Slot>, node: Node, byName: Cache, byId: Cache)
    returns (repaired: Node, byName': Cache, byId': Cache)
    requires UniqueIds(w.rows) && NameCacheFits(w, seen, byName) && IdCacheFits(w, seen, byId)
    ensures repaired == if node.disabled || node.credentials.None? then node
                        else node.(credentials := Some(Repair(w, seen, node.credentials.value)))
    ensures NameCacheFits(w, seen + Visited(node), byName') && IdCacheFits(w, seen + Visited(node), byId')
  {
    repaired, byName', byId' := node, byName, byId;
    if node.credentials.None? || node.disabled {
      assert seen + [] == seen;
    } else {
      var out;
      out, byName', byId' := RepairSlots(w, seen, node.credentials.value, byName, byId);
      repaired := node.(credentials := Some(out));
    }
  }
}
