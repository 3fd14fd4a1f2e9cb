/** The webhook table that all workflows of all processes share. */
module WebhookTable {
  import opened Wrappers

  type Id = string

  datatype Key = Key(path: string, verb: string)

  datatype Webhook = Webhook(workflowId: Id, node: string)

  type Table = map<Key, Webhook>

  // ---------- paths ----------

  function StripFront(path: string): string {
    if path != "" && path[0] == '/' then path[1..] else path
  }

  function StripBack(path: string): string {
    if path != "" && path[|path| - 1] == '/' then path[..|path| - 1] else path
  }

  function Normalised(path: string): string {
    StripBack(StripFront(path))
  }

  predicate Bare(path: string) {
    path == "" || (path[0] != '/' && path[|path| - 1] != '/')
  }

  /** A path without slashes at its ends is stored under itself, however it is written. */
  lemma SpellingsShareOneKey(path: string)
    requires Bare(path)
    ensures Normalised(path) == path
    ensures Normalised("/" + path) == path && Normalised("/" + path + "/") == path
    ensures path != "" ==> Normalised(path + "/") == path
  {
    assert ("/" + path)[1..] == path;
    assert ("/" + path + "/")[1..] == path + "/";
    assert (path + "/")[..|path|] == path;
  }

  /** Of any path, whatever else it begins and ends with. */
  lemma OneSlashGoes(path: string)
    ensures Normalised("/" + path + "/") == path
    ensures (path == "" || path[|path| - 1] != '/') ==> Normalised("/" + path) == path
    ensures (path != "" && path[0] != '/') ==> Normalised(path + "/") == path
  {
    assert ("/" + path)[1..] == path;
    assert ("/" + path + "/")[1..] == path + "/";
    assert (path + "/")[..|path|] == path;
  }

  /** One slash is taken off each end and no more, so a second normalisation may change the path
      again; it does not exactly when the first result has no slash at its ends. */
  lemma StableExactlyWhenBare(path: string)
    ensures Normalised(Normalised(path)) == Normalised(path) <==> Bare(Normalised(path))
  {
    var p := Normalised(path);
    if p != "" && p[0] == '/' {
      assert |Normalised(p)| < |p|;
    }
  }

  // ---------- the statements that reach the table ----------

  predicate Owns(table: Table, id: Id, key: Key) {
    key in table && table[key].workflowId == id
  }

  predicate Taken(table: Table, id: Id, key: Key) {
    key in table && table[key].workflowId != id
  }

  /** The keys of a workflow's rows, of all or of some of its nodes. */
  function OwnKeys(table: Table, id: Id, nodes: Option<set<string>>): set<Key> {
    set key | key in table && table[key].workflowId == id && (nodes.Some? ==> table[key].node in nodes.value)
  }

  /** A lookup that has found the key in the hands of its own workflow, before its refresh. */
  datatype Lookup = Lookup(id: Id, key: Key, node: string)

  /** The rows a clear has found, before it removes them. */
  datatype Listing = Listing(id: Id, keys: set<Key>)

  /** The table, and what the processes have read from it so far. */
  datatype Shared = Shared(table: Table, found: seq<Lookup>, listed: seq<Listing>)

  /** Storing is an insert, which fails when the key exists; then a lookup of the row that is there;
      and, if it is an own one, a refresh. Clearing finds the workflow's rows, or those of some nodes,
      and then removes them. Refresh and removal address rows by their keys, whoever owns them by
      then. */
  datatype Statement =
    | Inserts(id: Id, key: Key, node: string)
    | Looks(id: Id, key: Key, node: string)
    | Refreshes(n: nat)
    | Finds(id: Id, nodes: Option<set<string>>)
    | Removes(n: nat)

  function Execute(s: Shared, a: Statement): Shared {
    match a
    case Inserts(id, key, node) => if key in s.table then s else s.(table := s.table[key := Webhook(id, node)])
    case Looks(id, key, node) => if Owns(s.table, id, key) then s.(found := s.found + [Lookup(id, key, node)]) else s
    case Refreshes(n) =>
      if n < |s.found| && s.found[n].key in s.table then
        s.(table := s.table[s.found[n].key := Webhook(s.found[n].id, s.found[n].node)])
      else s
    case Finds(id, nodes) => s.(listed := s.listed + [Listing(id, OwnKeys(s.table, id, nodes))])
    case Removes(n) => if n < |s.listed| then s.(table := s.table - s.listed[n].keys) else s
  }

  function ExecuteAll(s: Shared, run: seq<Statement>): Shared {
    if run == [] then s else Execute(ExecuteAll(s, run[..|run| - 1]), run[|run| - 1])
  }

  /** The state before statement `i` of a run. */
  function At(s: Shared, run: seq<Statement>, i: nat): Shared
    requires i <= |run|
  {
    ExecuteAll(s, run[..i])
  }

  lemma ExecuteOneMore(s: Shared, run: seq<Statement>, a: Statement)
    ensures ExecuteAll(s, run + [a]) == Execute(ExecuteAll(s, run), a)
  {
    assert (run + [a])[..|run|] == run;
  }

  lemma {:induction false} ExecuteAppend(s: Shared, a: seq<Statement>, b: seq<Statement>)
    ensures ExecuteAll(s, a + b) == ExecuteAll(ExecuteAll(s, a), b)
    decreases |b|
  {
    if b == [] {
      assert a + b == a;
    } else {
      var n := |b| - 1;
      assert a + b == a + b[..n] + [b[n]];
      ExecuteOneMore(s, a + b[..n], b[n]);
      ExecuteAppend(s, a, b[..n]);
    }
  }

  lemma {:induction false} ReadingsStay(s: Shared, run: seq<Statement>)
    ensures s.found <= ExecuteAll(s, run).found && s.listed <= ExecuteAll(s, run).listed
  {
    if run != [] {
      ReadingsStay(s, run[..|run| - 1]);
    }
  }

  // ---------- storing and clearing with nothing in between ----------

  function Store(table: Table, id: Id, key: Key, node: string): Table {
    if Taken(table, id, key) then table else table[key := Webhook(id, node)]
  }

  function Clear(table: Table, id: Id): Table {
    map key | key in table && table[key].workflowId != id :: table[key]
  }

  /** With nothing in between, the statements of a store are one atomic store. */
  lemma AdjacentStatementsAreAStore(s: Shared, id: Id, key: Key, node: string)
    ensures var inserted := Execute(s, Inserts(id, key, node));
            var looked := Execute(inserted, Looks(id, key, node));
            && (key !in s.table ==> inserted.table == Store(s.table, id, key, node))
            && (Taken(s.table, id, key) ==> looked == s && s.table == Store(s.table, id, key, node))
            && (Owns(s.table, id, key) ==> Execute(looked, Refreshes(|s.found|)).table == Store(s.table, id, key, node))
  {
  }

  /** And those of a clear are one atomic clear, of the whole workflow or of some of its nodes. */
  lemma AdjacentStatementsAreAClear(s: Shared, id: Id, nodes: set<string>)
    ensures Execute(Execute(s, Finds(id, None)), Removes(|s.listed|)).table == Clear(s.table, id)
    ensures Execute(Execute(s, Finds(id, Some(nodes))), Removes(|s.listed|)).table
         == map key | key in s.table && !(s.table[key].workflowId == id && s.table[key].node in nodes) :: s.table[key]
  {
  }

  // ---------- who owns a key ----------

  /** The statement takes the key away from its owner: a refresh of another workflow's lookup, or a
      removal whose listing has the key. */
  predicate Loses(s: Shared, a: Statement, owner: Id, key: Key) {
    Owns(s.table, owner, key) && (TakesOver(s, a, owner, key) || OwnRemoval(s, a, owner, key))
  }

  /** A refresh or a removal that was prepared by another workflow, and comes late. */
  predicate TakesOver(s: Shared, a: Statement, owner: Id, key: Key) {
    && Owns(s.table, owner, key)
    && (|| (a.Refreshes? && a.n < |s.found| && s.found[a.n].key == key && s.found[a.n].id != owner)
        || (a.Removes? && a.n < |s.listed| && key in s.listed[a.n].keys && s.listed[a.n].id != owner))
  }

  /** The owner's own clear removes the row. */
  predicate OwnRemoval(s: Shared, a: Statement, owner: Id, key: Key) {
    && Owns(s.table, owner, key)
    && a.Removes? && a.n < |s.listed| && key in s.listed[a.n].keys && s.listed[a.n].id == owner
  }

  /** The statement makes the workflow the owner of a key that it does not own. */
  predicate Gains(s: Shared, a: Statement, owner: Id, key: Key) {
    && !Owns(s.table, owner, key)
    && (|| (a.Inserts? && a.id == owner && a.key == key && key !in s.table)
        || (a.Refreshes? && a.n < |s.found| && s.found[a.n].key == key && s.found[a.n].id == owner && key in s.table))
  }

  lemma OwnsAfter(s: Shared, a: Statement, owner: Id, key: Key)
    ensures Owns(Execute(s, a).table, owner, key) <==>
            (Owns(s.table, owner, key) && !Loses(s, a, owner, key)) || Gains(s, a, owner, key)
  {
  }

  predicate OwnsAt(s: Shared, run: seq<Statement>, i: nat, owner: Id, key: Key)
    requires i <= |run|
  {
    Owns(At(s, run, i).table, owner, key)
  }

  predicate LosesAt(s: Shared, run: seq<Statement>, i: nat, owner: Id, key: Key)
    requires i < |run|
  {
    Loses(At(s, run, i), run[i], owner, key)
  }

  predicate GainsAt(s: Shared, run: seq<Statement>, i: nat, owner: Id, key: Key)
    requires i < |run|
  {
    Gains(At(s, run, i), run[i], owner, key)
  }

  lemma AtNext(s: Shared, run: seq<Statement>, i: nat)
    requires i < |run|
    ensures At(s, run, i + 1) == Execute(At(s, run, i), run[i])
  {
    assert run[..i + 1] == run[..i] + [run[i]];
    ExecuteOneMore(s, run[..i], run[i]);
  }

  lemma OwnsAtNext(s: Shared, run: seq<Statement>, i: nat, owner: Id, key: Key)
    requires i < |run|
    ensures OwnsAt(s, run, i + 1, owner, key) <==>
            (OwnsAt(s, run, i, owner, key) && !LosesAt(s, run, i, owner, key)) || GainsAt(s, run, i, owner, key)
  {
    AtNext(s, run, i);
    OwnsAfter(At(s, run, i), run[i], owner, key);
  }

  /** No statement from the `i`-th up to the `n`-th takes the key from its owner. */
  ghost predicate Undisturbed(s: Shared, run: seq<Statement>, i: nat, n: nat, owner: Id, key: Key)
    requires n <= |run|
  {
    forall j :: i <= j < n ==> !LosesAt(s, run, j, owner, key)
  }

  /** The key is gained before the `n`-th statement, and kept up to it. */
  ghost predicate GainedAndKept(s: Shared, run: seq<Statement>, n: nat, owner: Id, key: Key)
    requires n <= |run|
  {
    exists i :: 0 <= i < n && GainsAt(s, run, i, owner, key) && Undisturbed(s, run, i + 1, n, owner, key)
  }

  lemma KeptOneMore(s: Shared, run: seq<Statement>, n: nat, owner: Id, key: Key)
    requires n < |run|
    ensures GainedAndKept(s, run, n + 1, owner, key) <==>
            GainsAt(s, run, n, owner, key)
            || (GainedAndKept(s, run, n, owner, key) && !LosesAt(s, run, n, owner, key))
  {
    if GainedAndKept(s, run, n + 1, owner, key) && !GainsAt(s, run, n, owner, key) {
      var i :| 0 <= i < n + 1 && GainsAt(s, run, i, owner, key) && Undisturbed(s, run, i + 1, n + 1, owner, key);
      assert Undisturbed(s, run, i + 1, n, owner, key);
    }
    if GainedAndKept(s, run, n, owner, key) && !LosesAt(s, run, n, owner, key) {
      var i :| 0 <= i < n && GainsAt(s, run, i, owner, key) && Undisturbed(s, run, i + 1, n, owner, key);
      assert Undisturbed(s, run, i + 1, n + 1, owner, key);
    }
    if GainsAt(s, run, n, owner, key) {
      assert Undisturbed(s, run, n + 1, n + 1, owner, key);
    }
  }

  /** Main result over every run of the single statements of any number of workflows and processes:
      a workflow owns a key exactly when it owned it at the start and no statement has taken it, or
      has stored it since and no later statement has taken it. */
  lemma {:induction false} OwnedExactlyWhenStored(s: Shared, run: seq<Statement>, n: nat, owner: Id, key: Key)
    requires n <= |run|
    ensures OwnsAt(s, run, n, owner, key) <==>
            (Owns(s.table, owner, key) && Undisturbed(s, run, 0, n, owner, key))
            || GainedAndKept(s, run, n, owner, key)
  {
    if n == 0 {
      assert run[..0] == [];
    } else {
      OwnedExactlyWhenStored(s, run, n - 1, owner, key);
      OwnsAtNext(s, run, n - 1, owner, key);
      KeptOneMore(s, run, n - 1, owner, key);
    }
  }

  /** Over every run in which the owner's own clear does not hit the row: it holds its key throughout
      if and only if no late refresh and no late removal of another workflow does. */
  lemma HeldExactlyWithoutLateStatement(s: Shared, run: seq<Statement>, owner: Id, key: Key)
    requires Owns(s.table, owner, key)
    requires forall i :: 0 <= i < |run| ==> !OwnRemoval(At(s, run, i), run[i], owner, key)
    ensures (forall i :: 0 <= i <= |run| ==> OwnsAt(s, run, i, owner, key))
       <==> (forall i :: 0 <= i < |run| ==> !TakesOver(At(s, run, i), run[i], owner, key))
  {
    if forall i :: 0 <= i < |run| ==> !TakesOver(At(s, run, i), run[i], owner, key) {
      forall i | 0 <= i <= |run|
        ensures OwnsAt(s, run, i, owner, key)
      {
        assert Undisturbed(s, run, 0, i, owner, key);
        OwnedExactlyWhenStored(s, run, i, owner, key);
      }
    } else {
      var i :| 0 <= i < |run| && TakesOver(At(s, run, i), run[i], owner, key);
      OwnsAtNext(s, run, i, owner, key);
      assert LosesAt(s, run, i, owner, key) && !GainsAt(s, run, i, owner, key);
    }
  }

  /** A key changes hands only when its owner clears it or a late statement of another hits it. */
  lemma OwnerChangesOnlyBy(s: Shared, run: seq<Statement>, owner: Id, key: Key)
    requires Owns(s.table, owner, key) && !OwnsAt(s, run, |run|, owner, key)
    ensures exists i :: 0 <= i < |run|
              && (OwnRemoval(At(s, run, i), run[i], owner, key) || TakesOver(At(s, run, i), run[i], owner, key))
  {
    OwnedExactlyWhenStored(s, run, |run|, owner, key);
    var i :| 0 <= i < |run| && LosesAt(s, run, i, owner, key);
    assert OwnRemoval(At(s, run, i), run[i], owner, key) || TakesOver(At(s, run, i), run[i], owner, key);
  }

  /** Every loss of the key is followed by a new gain. */
  ghost predicate LossesMadeGood(s: Shared, run: seq<Statement>, owner: Id, key: Key) {
    forall j :: 0 <= j < |run| && LosesAt(s, run, j, owner, key) ==>
      exists i :: j < i < |run| && GainsAt(s, run, i, owner, key)
  }

  lemma {:induction false} LastLoss(s: Shared, run: seq<Statement>, i: nat, n: nat, owner: Id, key: Key)
    returns (j: nat)
    requires i <= n <= |run| && OwnsAt(s, run, i, owner, key) && !OwnsAt(s, run, n, owner, key)
    ensures i <= j < n && LosesAt(s, run, j, owner, key)
    ensures forall g :: j < g < n ==> !GainsAt(s, run, g, owner, key)
    decreases n
  {
    OwnsAtNext(s, run, n - 1, owner, key);
    if OwnsAt(s, run, n - 1, owner, key) {
      j := n - 1;
    } else {
      j := LastLoss(s, run, i, n - 1, owner, key);
    }
  }

  /** A workflow that owns a key at some moment owns it at the end exactly when every loss is made
      good. */
  lemma OwnedOnceExactly(s: Shared, run: seq<Statement>, p: nat, owner: Id, key: Key)
    requires p <= |run| && OwnsAt(s, run, p, owner, key)
    ensures OwnsAt(s, run, |run|, owner, key) <==> LossesMadeGood(s, run, owner, key)
  {
    if !OwnsAt(s, run, |run|, owner, key) {
      var j := LastLoss(s, run, p, |run|, owner, key);
      assert LosesAt(s, run, j, owner, key);
    } else {
      forall j | 0 <= j < |run| && LosesAt(s, run, j, owner, key)
        ensures exists i :: j < i < |run| && GainsAt(s, run, i, owner, key)
      {
        OwnsAtNext(s, run, j, owner, key);
        var i := FirstGain(s, run, j + 1, |run|, owner, key);
      }
    }
  }

  lemma {:induction false} FirstGain(s: Shared, run: seq<Statement>, i: nat, n: nat, owner: Id, key: Key)
    returns (g: nat)
    requires i <= n <= |run| && !OwnsAt(s, run, i, owner, key) && OwnsAt(s, run, n, owner, key)
    ensures i <= g < n && GainsAt(s, run, g, owner, key)
    decreases n
  {
    OwnsAtNext(s, run, n - 1, owner, key);
    if OwnsAt(s, run, n - 1, owner, key) {
      g := FirstGain(s, run, i, n - 1, owner, key);
    } else {
      g := n - 1;
    }
  }

  // ---------- what a statement does to rows ----------

  /** Other workflows' rows are the same before and after. */
  ghost predicate KeepsOthers(before: Table, after: Table, id: Id) {
    && (forall key :: Taken(before, id, key) ==> key in after && after[key] == before[key])
    && (forall key :: Taken(after, id, key) ==> key in before && before[key] == after[key])
  }

  /** The workflow on whose behalf a statement is made. */
  function Behalf(s: Shared, a: Statement): Option<Id> {
    match a
    case Inserts(id, _, _) => Some(id)
    case Looks(id, _, _) => Some(id)
    case Finds(id, _) => Some(id)
    case Refreshes(n) => if n < |s.found| then Some(s.found[n].id) else None
    case Removes(n) => if n < |s.listed| then Some(s.listed[n].id) else None
  }

  /** A statement leaves other workflows' rows alone exactly when it does not come late. */
  lemma StatementKeepsOthersExactlyWhen(s: Shared, a: Statement, id: Id)
    requires Behalf(s, a) == Some(id)
    ensures KeepsOthers(s.table, Execute(s, a).table, id) <==>
            forall owner, key :: owner != id ==> !TakesOver(s, a, owner, key)
  {
    var after := Execute(s, a).table;
    if KeepsOthers(s.table, after, id) {
      forall owner, key | owner != id
        ensures !TakesOver(s, a, owner, key)
      {
        OwnsAfter(s, a, owner, key);
        assert Owns(s.table, owner, key) ==> Taken(s.table, id, key);
      }
    } else if forall owner, key :: owner != id ==> !TakesOver(s, a, owner, key) {
      forall key | Taken(s.table, id, key)
        ensures key in after && after[key] == s.table[key]
      {
        assert !TakesOver(s, a, s.table[key].workflowId, key);
      }
    }
  }

  /** The row that a statement writes, if it writes one. */
  function Written(s: Shared, a: Statement): Option<(Key, Webhook)> {
    match a
    case Inserts(id, key, node) => if key in s.table then None else Some((key, Webhook(id, node)))
    case Refreshes(n) =>
      if n < |s.found| && s.found[n].key in s.table then Some((s.found[n].key, Webhook(s.found[n].id, s.found[n].node)))
      else None
    case _ => None
  }

  predicate Removed(s: Shared, a: Statement, key: Key) {
    a.Removes? && a.n < |s.listed| && key in s.listed[a.n].keys
  }

  predicate Holds(table: Table, key: Key, row: Webhook) {
    key in table && table[key] == row
  }

  /** The statement neither removes nor rewrites the row. */
  predicate Leaves(s: Shared, a: Statement, key: Key) {
    !Removed(s, a, key) && (Written(s, a).Some? ==> Written(s, a).value.0 != key)
  }

  lemma WriterHolds(s: Shared, a: Statement, key: Key, row: Webhook)
    ensures Written(s, a) == Some((key, row)) ==> Holds(Execute(s, a).table, key, row)
    ensures Holds(s.table, key, row) && Leaves(s, a, key) ==> Holds(Execute(s, a).table, key, row)
  {
  }

  predicate LeavesAt(s: Shared, run: seq<Statement>, i: nat, key: Key)
    requires i < |run|
  {
    Leaves(At(s, run, i), run[i], key)
  }

  /** A row is what the last statement wrote that wrote it. */
  lemma {:induction false} LastWriterStays(s: Shared, run: seq<Statement>, i: nat, n: nat, key: Key, row: Webhook)
    requires i < n <= |run| && Written(At(s, run, i), run[i]) == Some((key, row))
    requires forall j :: i < j < n ==> LeavesAt(s, run, j, key)
    ensures Holds(At(s, run, n).table, key, row)
    decreases n
  {
    AtNext(s, run, n - 1);
    WriterHolds(At(s, run, n - 1), run[n - 1], key, row);
    if i < n - 1 {
      LastWriterStays(s, run, i, n - 1, key, row);
      assert LeavesAt(s, run, n - 1, key);
    }
  }

  // ---------- late statements do happen ----------

  /** One workflow refreshes its row, is cleared between the lookup and the refresh, another takes
      the free key, and the refresh takes it away, though that one has never cleared. */
  lemma LateRefreshTakesOver(a: Id, b: Id, key: Key, node: string, other: string, s: Shared)
    requires a != b && s == Shared(map[key := Webhook(a, node)], [], [])
    ensures var run := [Looks(a, key, node), Finds(a, None), Removes(0), Inserts(b, key, other)];
            && Owns(ExecuteAll(s, run).table, b, key)
            && TakesOver(ExecuteAll(s, run), Refreshes(0), b, key)
            && Owns(ExecuteAll(s, run + [Refreshes(0)]).table, a, key)
  {
    var r1 := [Looks(a, key, node)];
    var r2 := r1 + [Finds(a, None)];
    var r3 := r2 + [Removes(0)];
    var r4 := r3 + [Inserts(b, key, other)];
    assert [] + [Looks(a, key, node)] == r1 && ExecuteAll(s, []) == s;
    ExecuteOneMore(s, [], Looks(a, key, node));
    ExecuteOneMore(s, r1, Finds(a, None));
    ExecuteOneMore(s, r2, Removes(0));
    ExecuteOneMore(s, r3, Inserts(b, key, other));
    ExecuteOneMore(s, r4, Refreshes(0));
    assert r4 == [Looks(a, key, node), Finds(a, None), Removes(0), Inserts(b, key, other)];
  }

  /** Two clears of one workflow overlap: the first removes the row, another workflow takes the free
      key, and the second removes that one's row. */
  lemma LateRemovalTakesOver(a: Id, b: Id, key: Key, node: string, other: string, s: Shared)
    requires a != b && s == Shared(map[key := Webhook(a, node)], [], [])
    ensures var run := [Finds(a, None), Finds(a, None), Removes(0), Inserts(b, key, other)];
            && Owns(ExecuteAll(s, run).table, b, key)
            && TakesOver(ExecuteAll(s, run), Removes(1), b, key)
            && key !in ExecuteAll(s, run + [Removes(1)]).table
  {
    var r1 := [Finds(a, None)];
    var r2 := r1 + [Finds(a, None)];
    var r3 := r2 + [Removes(0)];
    var r4 := r3 + [Inserts(b, key, other)];
    assert [] + [Finds(a, None)] == r1 && ExecuteAll(s, []) == s;
    ExecuteOneMore(s, [], Finds(a, None));
    ExecuteOneMore(s, r1, Finds(a, None));
    ExecuteOneMore(s, r2, Removes(0));
    ExecuteOneMore(s, r3, Inserts(b, key, other));
    ExecuteOneMore(s, r4, Removes(1));
    assert r4 == [Finds(a, None), Finds(a, None), Removes(0), Inserts(b, key, other)];
  }

  // ---------- storing one webhook ----------

  datatype Failure = QueryFailed | PathTaken | OtherFailure

  datatype Activation = Init | LeadershipChange | Activate | Update

  /** A webhook to register, and which of the calls for it fail for reasons of their own. */
  datatype Hook = Hook(path: string, verb: string, node: string, insert: Option<Failure>, lookup: Option<Failure>,
                       refresh: Option<Failure>, create: Option<Failure>)

  /** What others get in before a call and at its awaits. */
  datatype Gap = Gap(first: seq<Statement>, second: seq<Statement>, third: seq<Statement>)

  datatype Stored = Stored(shared: Shared, error: Option<Failure>)

  function KeyOf(hook: Hook): Key {
    Key(Normalised(hook.path), hook.verb)
  }

  /** An insert fails when the key exists. After a failed insert the row that is there decides; if
      there is none, the error of the insert is reported. */
  function StoreOne(s: Shared, id: Id, hook: Hook, gap: Gap): Stored {
    var key := KeyOf(hook);
    var before := ExecuteAll(s, gap.first);
    if hook.insert.None? && key !in before.table then Stored(Execute(before, Inserts(id, key, hook.node)), None)
    else
      var looking := ExecuteAll(before, gap.second);
      if hook.lookup.Some? then Stored(looking, hook.lookup)
      else if key !in looking.table then Stored(looking, Some(hook.insert.GetOr(QueryFailed)))
      else if Taken(looking.table, id, key) then Stored(looking, Some(PathTaken))
      else
        var refreshing := ExecuteAll(Execute(looking, Looks(id, key, hook.node)), gap.third);
        if hook.refresh.Some? then Stored(refreshing, hook.refresh)
        else Stored(Execute(refreshing, Refreshes(|looking.found|)), None)
  }

  /** The statements of a store and those that others got in. */
  function RunOfStore(s: Shared, id: Id, hook: Hook, gap: Gap): seq<Statement> {
    var key := KeyOf(hook);
    var before := ExecuteAll(s, gap.first);
    if hook.insert.None? && key !in before.table then gap.first + [Inserts(id, key, hook.node)]
    else
      var looking := ExecuteAll(before, gap.second);
      if hook.lookup.Some? || !Owns(looking.table, id, key) then gap.first + gap.second
      else
        gap.first + gap.second + [Looks(id, key, hook.node)] + gap.third
        + if hook.refresh.Some? then [] else [Refreshes(|looking.found|)]
  }

  lemma StoreIsARun(s: Shared, id: Id, hook: Hook, gap: Gap)
    ensures StoreOne(s, id, hook, gap).shared == ExecuteAll(s, RunOfStore(s, id, hook, gap))
  {
    var key := KeyOf(hook);
    var before := ExecuteAll(s, gap.first);
    if hook.insert.None? && key !in before.table {
      ExecuteOneMore(s, gap.first, Inserts(id, key, hook.node));
    } else {
      ExecuteAppend(s, gap.first, gap.second);
      var looking := ExecuteAll(before, gap.second);
      if hook.lookup.None? && Owns(looking.table, id, key) {
        ExecuteOneMore(s, gap.first + gap.second, Looks(id, key, hook.node));
        ExecuteAppend(s, gap.first + gap.second + [Looks(id, key, hook.node)], gap.third);
        ExecuteOneMore(s, gap.first + gap.second + [Looks(id, key, hook.node)] + gap.third, Refreshes(|looking.found|));
        assert RunOfStore(s, id, hook, gap)[..|RunOfStore(s, id, hook, gap)|] == RunOfStore(s, id, hook, gap);
      }
    }
  }

  /** When a store goes through, the workflow owns the key right after its insert, or did so when it
      looked. */
  lemma StoreSecures(s: Shared, id: Id, hook: Hook, gap: Gap) returns (p: nat)
    requires StoreOne(s, id, hook, gap).error.None?
    ensures p <= |RunOfStore(s, id, hook, gap)| && OwnsAt(s, RunOfStore(s, id, hook, gap), p, id, KeyOf(hook))
  {
    var key := KeyOf(hook);
    var run := RunOfStore(s, id, hook, gap);
    var before := ExecuteAll(s, gap.first);
    if hook.insert.None? && key !in before.table {
      ExecuteOneMore(s, gap.first, Inserts(id, key, hook.node));
      p := |run|;
      assert run[..p] == gap.first + [Inserts(id, key, hook.node)];
    } else {
      ExecuteAppend(s, gap.first, gap.second);
      p := |gap.first + gap.second|;
      assert run[..p] == gap.first + gap.second;
    }
  }

  /** Two webhooks share a row if and only if they have the same method and the same path, up to a
      slash at each end. */
  lemma KeysAgreeExactlyWhen(a: Hook, b: Hook)
    ensures KeyOf(a) == KeyOf(b) <==> a.verb == b.verb && Normalised(a.path) == Normalised(b.path)
  {
  }

  /** One of the ways to write a path. */
  predicate Spells(written: string, path: string) {
    && Bare(path)
    && (written in [path, "/" + path, "/" + path + "/"] || (path != "" && written == path + "/"))
  }

  lemma SpelledKey(hook: Hook, path: string)
    requires Spells(hook.path, path)
    ensures KeyOf(hook) == Key(path, hook.verb)
  {
    SpellingsShareOneKey(path);
  }

  /** A free row of that very path and method is taken, however the path is written and whoever owns
      the other methods of it; no other row changes. */
  lemma FreeMethodIsStored(s: Shared, id: Id, hook: Hook, gap: Gap, path: string)
    requires Spells(hook.path, path) && hook.insert.None?
    requires Key(path, hook.verb) !in ExecuteAll(s, gap.first).table
    ensures StoreOne(s, id, hook, gap).error == None
    ensures StoreOne(s, id, hook, gap).shared.table
         == ExecuteAll(s, gap.first).table[Key(path, hook.verb) := Webhook(id, hook.node)]
  {
    SpelledKey(hook, path);
  }

  /** A row of that path and method in the hands of another workflow is left to it, and the store is
      refused. */
  lemma TakenMethodIsRefused(s: Shared, id: Id, hook: Hook, gap: Gap, path: string)
    requires Spells(hook.path, path) && hook.lookup.None?
    requires Key(path, hook.verb) in ExecuteAll(s, gap.first).table
    requires var looking := ExecuteAll(ExecuteAll(s, gap.first), gap.second);
             Key(path, hook.verb) in looking.table && looking.table[Key(path, hook.verb)].workflowId != id
    ensures StoreOne(s, id, hook, gap)
         == Stored(ExecuteAll(ExecuteAll(s, gap.first), gap.second), Some(PathTaken))
  {
    SpelledKey(hook, path);
  }

  /** An own row is refreshed, if nobody takes it out meanwhile; no other row changes. */
  lemma OwnMethodIsRefreshed(s: Shared, id: Id, hook: Hook, gap: Gap, path: string)
    requires Spells(hook.path, path) && hook.lookup.None? && hook.refresh.None? && gap.third == []
    requires Key(path, hook.verb) in ExecuteAll(s, gap.first).table
    requires var looking := ExecuteAll(ExecuteAll(s, gap.first), gap.second);
             Key(path, hook.verb) in looking.table && looking.table[Key(path, hook.verb)].workflowId == id
    ensures StoreOne(s, id, hook, gap).error == None
    ensures StoreOne(s, id, hook, gap).shared.table
         == ExecuteAll(ExecuteAll(s, gap.first), gap.second).table[Key(path, hook.verb) := Webhook(id, hook.node)]
  {
    SpelledKey(hook, path);
    var looking := ExecuteAll(ExecuteAll(s, gap.first), gap.second);
    var looked := Execute(looking, Looks(id, KeyOf(hook), hook.node));
    assert ExecuteAll(looked, []) == looked;
  }

  /** An insert that fails although the row is free fails the store with its own error; so do a
      failed lookup and a failed refresh. None of them changes a row. */
  lemma FailedCallsAreReported(s: Shared, id: Id, hook: Hook, gap: Gap, path: string)
    requires Spells(hook.path, path) && gap.first == [] && gap.second == [] && gap.third == []
    ensures var key, stored := Key(path, hook.verb), StoreOne(s, id, hook, gap);
            && (key !in s.table && hook.insert.Some? ==>
                  stored == Stored(s, if hook.lookup.Some? then hook.lookup else hook.insert))
            && (key in s.table && hook.lookup.Some? ==> stored == Stored(s, hook.lookup))
            && (key in s.table && hook.lookup.None? && s.table[key].workflowId == id && hook.refresh.Some? ==>
                  stored.shared.table == s.table && stored.error == hook.refresh)
  {
    SpelledKey(hook, path);
    assert ExecuteAll(s, []) == s;
    var looked := Execute(s, Looks(id, KeyOf(hook), hook.node));
    assert ExecuteAll(looked, []) == looked;
  }

  // ---------- a registration among the statements of others ----------

  datatype Outcome = NoWebhooks | Added | Rejected(failure: Failure, cleared: bool) | NotSaved

  predicate Tolerant(activation: Activation) {
    activation == Init || activation == LeadershipChange
  }

  /** One gap for every webhook, and one for the clean-up or the return. */
  predicate Fits(hooks: seq<Hook>, gaps: seq<Gap>) {
    |gaps| == |hooks| + 1
  }

  predicate Fatal(error: Option<Failure>, activation: Activation) {
    error.Some? && !(Tolerant(activation) && error.value == QueryFailed)
  }

  /** A registration as far as it got: the state before every webhook it tried, the state after the
      last one, and the error of each. */
  ghost predicate Registers(states: seq<Shared>, errors: seq<Option<Failure>>, id: Id, hooks: seq<Hook>,
                            gaps: seq<Gap>) {
    && Fits(hooks, gaps) && |states| == |errors| + 1 && |errors| <= |hooks|
    && forall i :: 0 <= i < |errors| ==> RegistersAt(states, errors, id, hooks, gaps, i)
  }

  ghost predicate RegistersAt(states: seq<Shared>, errors: seq<Option<Failure>>, id: Id, hooks: seq<Hook>,
                              gaps: seq<Gap>, i: nat)
    requires Fits(hooks, gaps) && |states| == |errors| + 1 && |errors| <= |hooks| && i < |errors|
  {
    var stored := StoreOne(states[i], id, hooks[i], gaps[i]);
    states[i + 1] == stored.shared && errors[i] == if stored.error.Some? then stored.error else hooks[i].create
  }

  /** Whether webhook `i` itself was stored. */
  ghost predicate StoredAt(states: seq<Shared>, id: Id, hooks: seq<Hook>, gaps: seq<Gap>, i: nat)
    requires i < |states| && i < |hooks| && i < |gaps|
  {
    StoreOne(states[i], id, hooks[i], gaps[i]).error.None?
  }

  /** It was stopped by its last webhook. */
  predicate Stopped(errors: seq<Option<Failure>>, activation: Activation) {
    errors != [] && Fatal(errors[|errors| - 1], activation)
  }

  /** It went on exactly until a webhook stopped it or there were no more. */
  predicate Complete(errors: seq<Option<Failure>>, hooks: seq<Hook>, activation: Activation) {
    && |errors| <= |hooks| && (|errors| < |hooks| ==> Stopped(errors, activation))
    && forall i :: 0 <= i < |errors| - 1 ==> !Fatal(errors[i], activation)
  }

  /** A clear: between its listing and its removal others get in. */
  function Cleared(s: Shared, id: Id, gap: Gap): Shared {
    Execute(BeforeRemoval(s, id, gap), Removes(|ExecuteAll(s, gap.first).listed|))
  }

  function BeforeRemoval(s: Shared, id: Id, gap: Gap): Shared {
    ExecuteAll(Execute(ExecuteAll(s, gap.first), Finds(id, None)), gap.second)
  }

  /** What is thrown: a failed query is reported as a taken path. */
  function Reported(error: Failure): Failure {
    if error == QueryFailed then PathTaken else error
  }

  /** Where a registration ends: after a webhook that stopped it comes the clean-up of the workflow's
      webhooks, which may fail before it lists them. */
  function EndOf(states: seq<Shared>, errors: seq<Option<Failure>>, id: Id, gaps: seq<Gap>, activation: Activation,
                 clearFails: bool): Shared
    requires |states| == |errors| + 1 && |errors| < |gaps|
  {
    var last, gap := states[|errors|], gaps[|errors|];
    if !Stopped(errors, activation) || clearFails then ExecuteAll(last, gap.first) else Cleared(last, id, gap)
  }

  function OutcomeOf(errors: seq<Option<Failure>>, hooks: seq<Hook>, activation: Activation, clearFails: bool,
                     saveFails: bool): Outcome {
    if hooks == [] then NoWebhooks
    else if Stopped(errors, activation) then Rejected(Reported(errors[|errors| - 1].value), !clearFails)
    else if saveFails then NotSaved
    else Added
  }

  // ---------- a registration as a run ----------

  /** The runs of the single stores, in order. */
  function Pieces(states: seq<Shared>, id: Id, hooks: seq<Hook>, gaps: seq<Gap>, n: nat): (pieces: seq<seq<Statement>>)
    requires n <= |hooks| && n <= |gaps| && n <= |states|
    ensures |pieces| == n
  {
    seq(n, i requires 0 <= i < n => RunOfStore(states[i], id, hooks[i], gaps[i]))
  }

  function Concat(pieces: seq<seq<Statement>>, n: nat): seq<Statement>
    requires n <= |pieces|
  {
    if n == 0 then [] else Concat(pieces, n - 1) + pieces[n - 1]
  }

  /** A registration that is not stopped, as one run: its own statements and those of others. */
  function WholeRun(states: seq<Shared>, id: Id, hooks: seq<Hook>, gaps: seq<Gap>): seq<Statement>
    requires Fits(hooks, gaps) && |hooks| <= |states|
  {
    Concat(Pieces(states, id, hooks, gaps, |hooks|), |hooks|) + gaps[|hooks|].first
  }

  lemma {:induction false} ConcatGrows(pieces: seq<seq<Statement>>, i: nat, n: nat)
    requires i <= n <= |pieces|
    ensures Concat(pieces, i) <= Concat(pieces, n)
    decreases n
  {
    if i < n {
      ConcatGrows(pieces, i, n - 1);
    }
  }

  lemma {:induction false} PiecesLead(states: seq<Shared>, pieces: seq<seq<Statement>>, n: nat)
    requires |states| == |pieces| + 1 && n <= |pieces|
    requires forall i :: 0 <= i < |pieces| ==> states[i + 1] == ExecuteAll(states[i], pieces[i])
    ensures states[n] == ExecuteAll(states[0], Concat(pieces, n))
  {
    if n > 0 {
      PiecesLead(states, pieces, n - 1);
      ExecuteAppend(states[0], Concat(pieces, n - 1), pieces[n - 1]);
    }
  }

  lemma PieceLeads(states: seq<Shared>, errors: seq<Option<Failure>>, id: Id, hooks: seq<Hook>, gaps: seq<Gap>, i: nat)
    requires Registers(states, errors, id, hooks, gaps) && i < |errors|
    ensures states[i + 1] == ExecuteAll(states[i], Pieces(states, id, hooks, gaps, |errors|)[i])
  {
    assert RegistersAt(states, errors, id, hooks, gaps, i);
    StoreIsARun(states[i], id, hooks[i], gaps[i]);
  }

  /** A registration among the statements of others is a run of single statements, so what holds
      over every run holds for it. */
  lemma RegistrationIsARun(states: seq<Shared>, errors: seq<Option<Failure>>, id: Id, hooks: seq<Hook>,
                           gaps: seq<Gap>, n: nat)
    requires Registers(states, errors, id, hooks, gaps) && n <= |errors|
    ensures states[n] == ExecuteAll(states[0], Concat(Pieces(states, id, hooks, gaps, |errors|), n))
  {
    var pieces := Pieces(states, id, hooks, gaps, |errors|);
    forall i | 0 <= i < |pieces|
      ensures states[i + 1] == ExecuteAll(states[i], pieces[i])
    {
      PieceLeads(states, errors, id, hooks, gaps, i);
    }
    PiecesLead(states, pieces, n);
  }

  lemma OwnsInExtension(s: Shared, a: seq<Statement>, b: seq<Statement>, run: seq<Statement>, p: nat, id: Id, key: Key)
    requires a + b <= run && p <= |b| && OwnsAt(ExecuteAll(s, a), b, p, id, key)
    ensures OwnsAt(s, run, |a| + p, id, key)
  {
    ExecuteAppend(s, a, b[..p]);
    assert run[..|a| + p] == a + b[..p];
  }

  lemma OwnedInside(s: Shared, pieces: seq<seq<Statement>>, last: seq<Statement>, before: Shared, i: nat, q: nat,
                    id: Id, key: Key) returns (p: nat)
    requires i < |pieces| && before == ExecuteAll(s, Concat(pieces, i))
    requires q <= |pieces[i]| && OwnsAt(before, pieces[i], q, id, key)
    ensures var run := Concat(pieces, |pieces|) + last;
            p <= |run| && OwnsAt(s, run, p, id, key)
  {
    ConcatGrows(pieces, i + 1, |pieces|);
    assert Concat(pieces, i) + pieces[i] == Concat(pieces, i + 1);
    OwnsInExtension(s, Concat(pieces, i), pieces[i], Concat(pieces, |pieces|) + last, q, id, key);
    p := |Concat(pieces, i)| + q;
  }

  /** A webhook that is stored without error is owned at some moment of the registration. */
  lemma StoredIsOwnedOnce(states: seq<Shared>, errors: seq<Option<Failure>>, id: Id, hooks: seq<Hook>,
                          gaps: seq<Gap>, i: nat)
    returns (p: nat)
    requires Registers(states, errors, id, hooks, gaps) && |errors| == |hooks|
    requires i < |hooks| && StoredAt(states, id, hooks, gaps, i)
    ensures var run := WholeRun(states, id, hooks, gaps);
            p <= |run| && OwnsAt(states[0], run, p, id, KeyOf(hooks[i]))
  {
    var pieces := Pieces(states, id, hooks, gaps, |hooks|);
    var q := StoreSecures(states[i], id, hooks[i], gaps[i]);
    RegistrationIsARun(states, errors, id, hooks, gaps, i);
    assert pieces[i] == RunOfStore(states[i], id, hooks[i], gaps[i]);
    p := OwnedInside(states[0], pieces, gaps[|hooks|].first, states[i], i, q, id, KeyOf(hooks[i]));
  }

  lemma WholeRunLeads(states: seq<Shared>, errors: seq<Option<Failure>>, id: Id, hooks: seq<Hook>, gaps: seq<Gap>)
    requires Registers(states, errors, id, hooks, gaps) && |errors| == |hooks|
    ensures ExecuteAll(states[0], WholeRun(states, id, hooks, gaps)) == ExecuteAll(states[|hooks|], gaps[|hooks|].first)
  {
    RegistrationIsARun(states, errors, id, hooks, gaps, |hooks|);
    ExecuteAppend(states[0], Concat(Pieces(states, id, hooks, gaps, |hooks|), |hooks|), gaps[|hooks|].first);
  }

  /** A clear leaves the workflow exactly the keys that were stored for it between
      its listing and its removal. */
  lemma ClearLeavesExactly(s: Shared, id: Id, gap: Gap, key: Key)
    ensures Owns(Cleared(s, id, gap).table, id, key) <==>
            Owns(BeforeRemoval(s, id, gap).table, id, key) && !Owns(ExecuteAll(s, gap.first).table, id, key)
  {
    var listing := Execute(ExecuteAll(s, gap.first), Finds(id, None));
    ReadingsStay(listing, gap.second);
    var before := ExecuteAll(s, gap.first);
    assert listing.listed[|before.listed|] == Listing(id, OwnKeys(before.table, id, None));
  }

  /** A registration is rejected exactly when some webhook cannot be stored or created at its moment
      and this is not tolerated: in a start-up or after a change of leadership, a failed query is.
      What is thrown is the error of the last webhook that was tried, a failed query being thrown as
      a taken path. */
  lemma RejectedExactlyWhen(errors: seq<Option<Failure>>, hooks: seq<Hook>, activation: Activation,
                            clearFails: bool, saveFails: bool)
    requires Complete(errors, hooks, activation)
    ensures OutcomeOf(errors, hooks, activation, clearFails, saveFails).Rejected? <==>
            exists i :: 0 <= i < |errors| && errors[i].Some?
                     && !(errors[i].value == QueryFailed && (activation == Init || activation == LeadershipChange))
    ensures OutcomeOf(errors, hooks, activation, clearFails, saveFails).Rejected? <==> Stopped(errors, activation)
    ensures var outcome := OutcomeOf(errors, hooks, activation, clearFails, saveFails);
            && (outcome.Rejected? ==>
                  && errors != [] && errors[|errors| - 1].Some? && outcome.cleared == !clearFails
                  && (errors[|errors| - 1] == Some(QueryFailed) ==> outcome.failure == PathTaken)
                  && (errors[|errors| - 1] != Some(QueryFailed) ==> Some(outcome.failure) == errors[|errors| - 1]))
            && (!outcome.Rejected? ==>
                  && (outcome == NoWebhooks <==> hooks == [])
                  && (outcome == NotSaved <==> hooks != [] && saveFails))
  {
    if i :| 0 <= i < |errors| && Fatal(errors[i], activation) {
      assert i == |errors| - 1;
    }
    assert forall i :: 0 <= i < |errors| ==>
      (Fatal(errors[i], activation) <==>
       errors[i].Some? && !(errors[i].value == QueryFailed && (activation == Init || activation == LeadershipChange)));
  }

  /** Main result: among any statements of other workflows and processes, at every await, and
      whatever the database and the external services do: outside a start-up, a registration that
      is not rejected ends in possession of exactly those of its keys whose losses on the way were
      made good, which is all of them when nobody takes one. */
  lemma AllOrNothing(states: seq<Shared>, errors: seq<Option<Failure>>, id: Id, hooks: seq<Hook>, gaps: seq<Gap>,
                     activation: Activation, clearFails: bool, i: nat)
    requires Registers(states, errors, id, hooks, gaps) && Complete(errors, hooks, activation)
    requires !Stopped(errors, activation) && !Tolerant(activation) && i < |hooks|
    ensures var after := EndOf(states, errors, id, gaps, activation, clearFails);
            Owns(after.table, id, KeyOf(hooks[i]))
            <==> LossesMadeGood(states[0], WholeRun(states, id, hooks, gaps), id, KeyOf(hooks[i]))
  {
    assert !Fatal(errors[i], activation) && RegistersAt(states, errors, id, hooks, gaps, i);
    WholeRunLeads(states, errors, id, hooks, gaps);
    UnstoppedOwns(states, errors, id, hooks, gaps, i);
  }

  /** Once the clean-up of a rejected one has worked, the workflow owns exactly the keys that were
      stored for it between the listing and the removal. One that fails removes nothing. */
  lemma RejectedKeepsExactly(states: seq<Shared>, errors: seq<Option<Failure>>, id: Id, hooks: seq<Hook>,
                             gaps: seq<Gap>, activation: Activation, key: Key)
    requires Registers(states, errors, id, hooks, gaps) && Stopped(errors, activation)
    ensures var last, gap := states[|errors|], gaps[|errors|];
            Owns(EndOf(states, errors, id, gaps, activation, false).table, id, key) <==>
            Owns(BeforeRemoval(last, id, gap).table, id, key) && !Owns(ExecuteAll(last, gap.first).table, id, key)
    ensures EndOf(states, errors, id, gaps, activation, true) == ExecuteAll(states[|errors|], gaps[|errors|].first)
  {
    ClearLeavesExactly(states[|errors|], id, gaps[|errors|], key);
  }

  lemma UnstoppedOwns(states: seq<Shared>, errors: seq<Option<Failure>>, id: Id, hooks: seq<Hook>,
                      gaps: seq<Gap>, i: nat)
    requires Registers(states, errors, id, hooks, gaps) && |errors| == |hooks|
    requires i < |hooks| && StoredAt(states, id, hooks, gaps, i)
    ensures Owns(ExecuteAll(states[0], WholeRun(states, id, hooks, gaps)).table, id, KeyOf(hooks[i]))
       <==> LossesMadeGood(states[0], WholeRun(states, id, hooks, gaps), id, KeyOf(hooks[i]))
  {
    var run := WholeRun(states, id, hooks, gaps);
    var p := StoredIsOwnedOnce(states, errors, id, hooks, gaps, i);
    OwnedOnceExactly(states[0], run, p, id, KeyOf(hooks[i]));
    assert run[..|run|] == run;
  }

  /** No statement gains the key for the workflow. */
  ghost predicate Quiet(s: Shared, run: seq<Statement>, id: Id, key: Key) {
    forall i :: 0 <= i < |run| ==> !GainsAt(s, run, i, id, key)
  }

  lemma QuietGainsNothing(s: Shared, run: seq<Statement>, id: Id, key: Key)
    requires !Owns(s.table, id, key) && Quiet(s, run, id, key)
    ensures !Owns(ExecuteAll(s, run).table, id, key)
  {
    OwnedExactlyWhenStored(s, run, |run|, id, key);
    assert run[..|run|] == run;
  }

  /** In particular nothing, when nobody stores anything for the workflow in between. */
  lemma RejectedLeavesNothing(s: Shared, id: Id, gap: Gap, key: Key)
    requires Quiet(Execute(ExecuteAll(s, gap.first), Finds(id, None)), gap.second, id, key)
    ensures !Owns(Cleared(s, id, gap).table, id, key)
  {
    ClearLeavesExactly(s, id, gap, key);
    var listing := Execute(ExecuteAll(s, gap.first), Finds(id, None));
    if !Owns(listing.table, id, key) {
      QuietGainsNothing(listing, gap.second, id, key);
    }
  }

  /** What any workflow owns in the course of somebody's registration is decided by what it owned,
      what it stored, its own clears and the late statements of others. */
  lemma OthersDecideForThemselves(states: seq<Shared>, errors: seq<Option<Failure>>, id: Id, hooks: seq<Hook>,
                                  gaps: seq<Gap>, n: nat, other: Id, key: Key)
    requires Registers(states, errors, id, hooks, gaps) && n <= |errors|
    ensures var run := Concat(Pieces(states, id, hooks, gaps, |errors|), n);
            Owns(states[n].table, other, key) <==>
            (Owns(states[0].table, other, key) && Undisturbed(states[0], run, 0, |run|, other, key))
            || GainedAndKept(states[0], run, |run|, other, key)
  {
    var run := Concat(Pieces(states, id, hooks, gaps, |errors|), n);
    RegistrationIsARun(states, errors, id, hooks, gaps, n);
    OwnedExactlyWhenStored(states[0], run, |run|, other, key);
    assert run[..|run|] == run;
  }

  // ---------- tolerated failures ----------

  /** Nobody else stores the key for the workflow while webhook `n` is registered. */
  ghost predicate QuietStore(s: Shared, id: Id, hook: Hook, gap: Gap, key: Key) {
    var before := ExecuteAll(s, gap.first);
    var looking := ExecuteAll(before, gap.second);
    && Quiet(s, gap.first, id, key) && Quiet(before, gap.second, id, key)
    && Quiet(Execute(looking, Looks(id, KeyOf(hook), hook.node)), gap.third, id, key)
  }

  ghost predicate QuietAt(states: seq<Shared>, id: Id, hooks: seq<Hook>, gaps: seq<Gap>, key: Key, i: nat)
    requires i < |states| && i < |hooks| && i < |gaps|
  {
    QuietStore(states[i], id, hooks[i], gaps[i], key)
  }

  /** Nor while any of them is. */
  ghost predicate NobodyElseStores(states: seq<Shared>, id: Id, hooks: seq<Hook>, gaps: seq<Gap>, key: Key)
    requires Fits(hooks, gaps) && |states| == |hooks| + 1
  {
    && (forall i :: 0 <= i < |hooks| ==> QuietAt(states, id, hooks, gaps, key, i))
    && Quiet(states[|hooks|], gaps[|hooks|].first, id, key)
  }

  /** A store that fails, or is for another key, does not gain the key. */
  lemma OtherStoreGainsNothing(s: Shared, id: Id, hook: Hook, gap: Gap, key: Key)
    requires !Owns(s.table, id, key) && QuietStore(s, id, hook, gap, key)
    requires KeyOf(hook) == key ==> StoreOne(s, id, hook, gap).error.Some?
    ensures !Owns(StoreOne(s, id, hook, gap).shared.table, id, key)
  {
    var before := ExecuteAll(s, gap.first);
    QuietGainsNothing(s, gap.first, id, key);
    if !(hook.insert.None? && KeyOf(hook) !in before.table) {
      var looking := ExecuteAll(before, gap.second);
      QuietGainsNothing(before, gap.second, id, key);
      var looked := Execute(looking, Looks(id, KeyOf(hook), hook.node));
      QuietGainsNothing(looked, gap.third, id, key);
      ReadingsStay(looked, gap.third);
      if Owns(looking.table, id, KeyOf(hook)) {
        assert looked.found[|looking.found|] == Lookup(id, KeyOf(hook), hook.node);
      }
    }
  }

  lemma FailedStoreGainsNothing(states: seq<Shared>, errors: seq<Option<Failure>>, id: Id, hooks: seq<Hook>,
                                gaps: seq<Gap>, key: Key, i: nat)
    requires Registers(states, errors, id, hooks, gaps) && i < |errors| && QuietAt(states, id, hooks, gaps, key, i)
    requires !Owns(states[i].table, id, key) && (KeyOf(hooks[i]) == key ==> !StoredAt(states, id, hooks, gaps, i))
    ensures !Owns(states[i + 1].table, id, key)
  {
    assert RegistersAt(states, errors, id, hooks, gaps, i);
    OtherStoreGainsNothing(states[i], id, hooks[i], gaps[i], key);
  }

  lemma {:induction false} StaysUnowned(states: seq<Shared>, id: Id, key: Key, n: nat)
    requires n < |states| && !Owns(states[0].table, id, key)
    requires forall i :: 0 <= i < |states| - 1 && !Owns(states[i].table, id, key) ==>
               !Owns(states[i + 1].table, id, key)
    ensures !Owns(states[n].table, id, key)
  {
    if n > 0 {
      StaysUnowned(states, id, key, n - 1);
    }
  }

  lemma FailedStoresGainNothing(states: seq<Shared>, errors: seq<Option<Failure>>, id: Id, hooks: seq<Hook>,
                                gaps: seq<Gap>, key: Key)
    requires Registers(states, errors, id, hooks, gaps) && |errors| == |hooks|
    requires NobodyElseStores(states, id, hooks, gaps, key) && !Owns(states[0].table, id, key)
    requires forall i :: 0 <= i < |hooks| && KeyOf(hooks[i]) == key ==> !StoredAt(states, id, hooks, gaps, i)
    ensures !Owns(ExecuteAll(states[|hooks|], gaps[|hooks|].first).table, id, key)
  {
    forall i | 0 <= i < |states| - 1 && !Owns(states[i].table, id, key)
      ensures !Owns(states[i + 1].table, id, key)
    {
      assert QuietAt(states, id, hooks, gaps, key, i);
      FailedStoreGainsNothing(states, errors, id, hooks, gaps, key, i);
    }
    StaysUnowned(states, id, key, |hooks|);
    QuietGainsNothing(states[|hooks|], gaps[|hooks|].first, id, key);
  }

  /** When failed queries are tolerated, a registration can report success and leave keys unowned:
      among statements that neither take the key from the workflow nor store it for it, exactly
      those that it did not own and none of whose webhooks was stored, every query having failed. */
  lemma ToleratedMissesExactly(states: seq<Shared>, errors: seq<Option<Failure>>, id: Id, hooks: seq<Hook>,
                               gaps: seq<Gap>, activation: Activation, key: Key)
    requires Registers(states, errors, id, hooks, gaps) && Complete(errors, hooks, activation)
    requires Tolerant(activation) && !Stopped(errors, activation) && NobodyElseStores(states, id, hooks, gaps, key)
    requires var run := WholeRun(states, id, hooks, gaps); Undisturbed(states[0], run, 0, |run|, id, key)
    ensures !Owns(ExecuteAll(states[0], WholeRun(states, id, hooks, gaps)).table, id, key) <==>
            !Owns(states[0].table, id, key)
            && forall i :: 0 <= i < |hooks| && KeyOf(hooks[i]) == key ==> !StoredAt(states, id, hooks, gaps, i)
    ensures forall i :: 0 <= i < |hooks| && !StoredAt(states, id, hooks, gaps, i) ==> errors[i] == Some(QueryFailed)
  {
    var run := WholeRun(states, id, hooks, gaps);
    forall i | 0 <= i < |hooks| && !StoredAt(states, id, hooks, gaps, i)
      ensures errors[i] == Some(QueryFailed)
    {
      assert RegistersAt(states, errors, id, hooks, gaps, i) && !Fatal(errors[i], activation);
    }
    assert run[..|run|] == run && run[..0] == [];
    if Owns(states[0].table, id, key) {
      OwnedExactlyWhenStored(states[0], run, |run|, id, key);
    } else if i :| 0 <= i < |hooks| && KeyOf(hooks[i]) == key && StoredAt(states, id, hooks, gaps, i) {
      UnstoppedOwns(states, errors, id, hooks, gaps, i);
    } else {
      FailedStoresGainNothing(states, errors, id, hooks, gaps, key);
      WholeRunLeads(states, errors, id, hooks, gaps);
    }
  }

  // ---------- the program ----------

  lemma RegistersOneMore(states: seq<Shared>, errors: seq<Option<Failure>>, id: Id, hooks: seq<Hook>, gaps: seq<Gap>,
                         next: Shared, error: Option<Failure>)
    requires Registers(states, errors, id, hooks, gaps) && |errors| < |hooks|
    requires var stored := StoreOne(states[|errors|], id, hooks[|errors|], gaps[|errors|]);
             next == stored.shared && error == if stored.error.Some? then stored.error else hooks[|errors|].create
    ensures Registers(states + [next], errors + [error], id, hooks, gaps)
  {
    forall i | 0 <= i < |errors + [error]|
      ensures RegistersAt(states + [next], errors + [error], id, hooks, gaps, i)
    {
      assert i < |errors| ==> RegistersAt(states, errors, id, hooks, gaps, i);
    }
  }

  /** The start and the circumstances determine a registration. */
  lemma {:induction false} RegistrationIsDetermined(
      states: seq<Shared>, errors: seq<Option<Failure>>, others: seq<Shared>, failures: seq<Option<Failure>>,
      id: Id, hooks: seq<Hook>, gaps: seq<Gap>, n: nat)
    requires Registers(states, errors, id, hooks, gaps) && Registers(others, failures, id, hooks, gaps)
    requires states[0] == others[0] && n <= |errors| && n <= |failures|
    ensures states[n] == others[n] && (n > 0 ==> errors[n - 1] == failures[n - 1])
  {
    if n > 0 {
      RegistrationIsDetermined(states, errors, others, failures, id, hooks, gaps, n - 1);
      assert RegistersAt(states, errors, id, hooks, gaps, n - 1);
      assert RegistersAt(others, failures, id, hooks, gaps, n - 1);
    }
  }

  class WebhookStore {
    var shared: Shared

    constructor ()
      ensures shared == Shared(map[], [], [])
    {
      shared := Shared(map[], [], []);
    }

    /** What other workflows and processes get in at an await. */
    method Elsewhere(run: seq<Statement>)
      modifies this
      ensures shared == ExecuteAll(old(shared), run)
    {
      var i := 0;
      while i < |run|
        invariant 0 <= i <= |run|
        invariant shared == ExecuteAll(old(shared), run[..i])
      {
        AtNext(old(shared), run, i);
        shared := Execute(shared, run[i]);
        i := i + 1;
      }
      assert run[..i] == run;
    }

    method DeleteWorkflowWebhooks(id: Id, gap: Gap)
      modifies this
      ensures shared == Cleared(old(shared), id, gap)
    {
      Elsewhere(gap.first);
      var webhooks := |shared.listed|;
      shared := Execute(shared, Finds(id, None));
      Elsewhere(gap.second);
      shared := Execute(shared, Removes(webhooks));
    }

    method ClearWebhooks(id: Id, gap: Gap, fails: bool) returns (done: bool)
      modifies this
      ensures done == !fails
      ensures shared == if fails then ExecuteAll(old(shared), gap.first) else Cleared(old(shared), id, gap)
    {
      if fails {
        Elsewhere(gap.first);
        return false;
      }
      DeleteWorkflowWebhooks(id, gap);
      done := true;
    }

    method StoreWebhook(id: Id, hook: Hook, gap: Gap) returns (error: Option<Failure>)
      modifies this
      ensures Stored(shared, error) == StoreOne(old(shared), id, hook, gap)
    {
      var path := hook.path;
      if path != "" && path[0] == '/' {
        path := path[1..];
      }
      if path != "" && path[|path| - 1] == '/' {
        path := path[..|path| - 1];
      }
      var key := Key(path, hook.verb);
      Elsewhere(gap.first);
      if hook.insert.None? && key !in shared.table {
        shared := Execute(shared, Inserts(id, key, hook.node));
        return None;
      }
      Elsewhere(gap.second);
      if hook.lookup.Some? {
        return hook.lookup;
      }
      if key !in shared.table {
        return Some(hook.insert.GetOr(QueryFailed));
      }
      if shared.table[key].workflowId != id {
        return Some(PathTaken);
      }
      var existing := |shared.found|;
      shared := Execute(shared, Looks(id, key, hook.node));
      Elsewhere(gap.third);
      if hook.refresh.Some? {
        return hook.refresh;
      }
      shared := Execute(shared, Refreshes(existing));
      error := None;
    }

    method RegisterNext(id: Id, hook: Hook, gap: Gap) returns (error: Option<Failure>)
      modifies this
      ensures var stored := StoreOne(old(shared), id, hook, gap);
              shared == stored.shared && error == if stored.error.Some? then stored.error else hook.create
    {
      error := StoreWebhook(id, hook, gap);
      if error.None? {
        error := hook.create;
      }
    }

    /** Registers the webhooks one by one, until one of them fails in a way that is not tolerated. */
    method RegisterUntilStopped(id: Id, hooks: seq<Hook>, gaps: seq<Gap>, activation: Activation)
      returns (failed: Option<Failure>, tried: nat, ghost states: seq<Shared>, ghost errors: seq<Option<Failure>>)
      requires Fits(hooks, gaps)
      modifies this
      ensures Registers(states, errors, id, hooks, gaps) && Complete(errors, hooks, activation)
      ensures states[0] == old(shared) && shared == states[|errors|] && tried == |errors|
      ensures failed == if Stopped(errors, activation) then errors[|errors| - 1] else None
    {
      tried, failed := 0, None;
      states, errors := [shared], [];
      while tried < |hooks|
        invariant tried == |errors| <= |hooks| && Registers(states, errors, id, hooks, gaps)
        invariant states[0] == old(shared) && shared == states[|errors|]
        invariant forall i :: 0 <= i < |errors| ==> !Fatal(errors[i], activation)
      {
        var error := RegisterNext(id, hooks[tried], gaps[tried]);
        RegistersOneMore(states, errors, id, hooks, gaps, shared, error);
        states, errors := states + [shared], errors + [error];
        tried := tried + 1;
        if error.Some? && !(Tolerant(activation) && error.value == QueryFailed) {
          failed := error;
          return;
        }
      }
    }

    /** The whole registration: if it is stopped, everything of the workflow is cleared, if that
        works. */
    method AddWebhooks(id: Id, hooks: seq<Hook>, gaps: seq<Gap>, activation: Activation,
                       clearFails: bool, saveFails: bool)
      returns (outcome: Outcome, ghost states: seq<Shared>, ghost errors: seq<Option<Failure>>)
      requires Fits(hooks, gaps)
      modifies this
      ensures Registers(states, errors, id, hooks, gaps) && Complete(errors, hooks, activation)
      ensures states[0] == old(shared)
      ensures shared == EndOf(states, errors, id, gaps, activation, clearFails)
      ensures outcome == OutcomeOf(errors, hooks, activation, clearFails, saveFails)
    {
      var failed, tried;
      failed, tried, states, errors := RegisterUntilStopped(id, hooks, gaps, activation);
      if failed.Some? {
        var done := ClearWebhooks(id, gaps[tried], clearFails);
        outcome := Rejected(if failed.value == QueryFailed then PathTaken else failed.value, done);
        return;
      }
      Elsewhere(gaps[tried].first);
      outcome := if hooks == [] then NoWebhooks else if saveFails then NotSaved else Added;
    }
  }
}
