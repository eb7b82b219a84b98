/** Batched eager loading agrees with per-entity lookup at every depth, whatever columns are selected. */
module EagerTheorems {
  import opened Basics
  import opened EntSchema
  import opened EagerSpec

  // ------------------------------------------------------------ scan facts

  lemma {:induction false} ScanMembers(rows: seq<Row>, preds: seq<Predicate>)
    ensures forall r :: r in Scan(rows, preds) <==> r in rows && Holds(preds, r)
  {
    if rows != [] {
      ScanMembers(rows[..|rows| - 1], preds);
      assert rows == rows[..|rows| - 1] + [rows[|rows| - 1]];
    }
  }

  lemma FrontDistinct(rows: seq<Row>, r: Row)
    requires rows != [] && DistinctIds(rows) && r in rows[..|rows| - 1]
    ensures DistinctIds(rows[..|rows| - 1]) && Key(r, ID) != Key(rows[|rows| - 1], ID)
  {
    var j :| 0 <= j < |rows| - 1 && rows[..|rows| - 1][j] == r;
    assert rows[j] == r;
  }

  lemma {:induction false} ScanDistinct(rows: seq<Row>, preds: seq<Predicate>)
    requires DistinctIds(rows)
    ensures DistinctIds(Scan(rows, preds))
  {
    if rows != [] {
      var front := rows[..|rows| - 1];
      ScanDistinct(front, preds);
      ScanMembers(front, preds);
      var rest := Scan(front, preds);
      forall i | 0 <= i < |rest| ensures Key(rest[i], ID) != Key(rows[|rows| - 1], ID) {
        assert rest[i] in rest;
        FrontDistinct(rows, rest[i]);
      }
    }
  }

  lemma ScanFacts(rows: seq<Row>, preds: seq<Predicate>)
    ensures forall r :: r in Scan(rows, preds) <==> r in rows && Holds(preds, r)
    ensures DistinctIds(rows) ==> DistinctIds(Scan(rows, preds))
  {
    ScanMembers(rows, preds);
    if DistinctIds(rows) {
      ScanDistinct(rows, preds);
    }
  }

  lemma HoldsNarrowed(preds: seq<Predicate>, c: Column, keys: set<int>, r: Row)
    ensures Holds(preds + [In(c, keys)], r) <==> Holds(preds, r) && Satisfies(In(c, keys), r)
  {
    var all := preds + [In(c, keys)];
    assert all[|preds|] == In(c, keys);
    assert forall i | 0 <= i < |preds| :: all[i] == preds[i];
  }

  lemma {:induction false} ScanOwnedUpTo(rows: seq<Row>, preds: seq<Predicate>, c: Column, keys: set<int>, k: int)
    requires k in keys
    ensures var all := Scan(rows, preds + [In(c, keys)]);
            Owned(all, Keys(all, c), k) == Scan(rows, preds + [In(c, {k})])
  {
    if rows != [] {
      var front, r := rows[..|rows| - 1], rows[|rows| - 1];
      ScanOwnedUpTo(front, preds, c, keys, k);
      HoldsNarrowed(preds, c, keys, r);
      HoldsNarrowed(preds, c, {k}, r);
      var rest := Scan(front, preds + [In(c, keys)]);
      var all := Scan(rows, preds + [In(c, keys)]);
      if all == rest + [r] {
        OwnedPrefix(all, Keys(all, c), rest, Keys(rest, c), |rest|, k);
      }
    }
  }

  lemma {:induction false} OwnedPrefix<T>(a: seq<T>, ka: seq<Option<int>>, b: seq<T>, kb: seq<Option<int>>, n: nat, k: int)
    requires n <= |a| == |ka| && n <= |b| == |kb|
    requires forall i | 0 <= i < n :: a[i] == b[i] && ka[i] == kb[i]
    ensures OwnedUpTo(a, ka, n, k) == OwnedUpTo(b, kb, n, k)
  {
    if n > 0 {
      OwnedPrefix(a, ka, b, kb, n - 1, k);
    }
  }

  /** A query for many keys finds the rows of each key as the query for that key alone does. */
  ghost predicate PerOwner(rows: seq<Row>, base: Base, c: Column, keys: set<int>) {
    var all := Select(rows, Narrow(base, c, keys));
    forall k | k in keys :: Owned(all, Keys(all, c), k) == Select(rows, Narrow(base, c, {k}))
  }

  /** Without offset and limit it does. */
  lemma UnlimitedPerOwner(rows: seq<Row>, base: Base, c: Column, keys: set<int>)
    requires Unlimited(base)
    ensures PerOwner(rows, base, c, keys)
  {
    forall k | k in keys
      ensures var all := Select(rows, Narrow(base, c, keys)); Owned(all, Keys(all, c), k) == Select(rows, Narrow(base, c, {k}))
    {
      ScanOwnedUpTo(rows, base.preds, c, keys, k);
    }
  }

  lemma ForcedColumn(base: Base, c: Column)
    ensures ForceColumn(base, c).fields != [] ==> c in ForceColumn(base, c).fields
    ensures ForceColumn(base, c).fields == [] <==> base.fields == []
    ensures Unlimited(base) ==> Unlimited(ForceColumn(base, c))
  {
  }

  lemma ProjectedKeys(rows: seq<Row>, columns: seq<Column>, c: Column)
    requires c in columns
    ensures Keys(ProjectAll(rows, columns), c) == Keys(rows, c)
    ensures KeySet(ProjectAll(rows, columns), c) == KeySet(rows, c)
    ensures PlainKeySet(ProjectAll(rows, columns), c) == PlainKeySet(rows, c)
  {
    var nodes := ProjectAll(rows, columns);
    assert forall i | 0 <= i < |rows| :: At(nodes[i], c) == At(rows[i], c);
    SameCellsSameKeys(nodes, rows, c);
    SameCellsSameKeys(rows, nodes, c);
  }

  lemma SameCellsSameKeys(a: seq<Row>, b: seq<Row>, c: Column)
    requires |a| == |b| && forall i | 0 <= i < |a| :: At(a[i], c) == At(b[i], c)
    ensures KeySet(a, c) <= KeySet(b, c) && PlainKeySet(a, c) <= PlainKeySet(b, c)
  {
    forall v | v in KeySet(a, c) ensures v in KeySet(b, c) {
      var r :| r in a && IntAt(r, c).Some? && IntAt(r, c).value == v;
      var i :| 0 <= i < |a| && a[i] == r;
      assert b[i] in b && IntAt(b[i], c) == Some(v);
    }
    forall v | v in PlainKeySet(a, c) ensures v in PlainKeySet(b, c) {
      var r :| r in a && Key(r, c) == v;
      var i :| 0 <= i < |a| && a[i] == r;
      assert b[i] in b && Key(b[i], c) == v;
    }
  }

  // ---------------------------------------------------------- leaf entities

  lemma OwnedProjected(rows: seq<Row>, columns: seq<Column>, keys: seq<Option<int>>, k: int)
    requires |rows| == |keys|
    ensures Owned(ProjectAll(rows, columns), keys, k) == ProjectAll(Owned(rows, keys, k), columns)
  {
    OwnedPositions(rows, ProjectAll(rows, columns), keys, |rows|, k);
  }

  /** One-to-many over leaves: picking an owner's rows out of the batch is that owner's own query. */
  lemma OwnedLeaves(rows: seq<Row>, table: seq<Column>, base: Base, c: Column, keys: set<int>, k: int)
    requires PerOwner(rows, base, c, keys) && k in keys && c in ColumnsWithId(table, base)
    ensures var found := Leaves(rows, table, Narrow(base, c, keys));
            Owned(found, Keys(found, c), k) == Leaves(rows, table, Narrow(base, c, {k}))
  {
    var all := Select(rows, Narrow(base, c, keys));
    ProjectedKeys(all, ColumnsWithId(table, base), c);
    OwnedProjected(all, ColumnsWithId(table, base), Keys(all, c), k);
  }

  /** Many-to-one over leaves. */
  lemma LatestLeaf(rows: seq<Row>, table: seq<Column>, base: Base, keys: set<int>, fk: Option<int>)
    requires PerOwner(rows, base, ID, keys) && ID in table
    requires fk.Some? ==> fk.value in keys
    ensures var found := Leaves(rows, table, Narrow(base, ID, keys));
            Latest(found, Keys(found, ID), fk) == LookUpLeaf(rows, table, base, fk)
  {
    var found := Leaves(rows, table, Narrow(base, ID, keys));
    if fk.Some? {
      OwnedLeaves(rows, table, base, ID, keys, fk.value);
      LatestIsLastOwned(found, Keys(found, ID), |found|, fk.value, None);
    } else {
      LatestOfMissing(found, Keys(found, ID), |found|);
    }
  }

  lemma {:induction false} LatestOfMissing<T>(items: seq<T>, keys: seq<Option<int>>, n: nat)
    requires n <= |items| == |keys|
    ensures LatestUpTo(items, keys, n, None, None) == None
  {
    if n > 0 {
      LatestOfMissing(items, keys, n - 1);
    }
  }

  // -------------------------------------------------- many-to-many: groups

  lemma {:induction false} ScanJoinFacts(pairs: seq<(Row, Row)>, preds: seq<Predicate>, accounts: set<int>)
    ensures forall p :: p in ScanJoin(pairs, preds, accounts) <==>
                        p in pairs && Holds(preds, p.1) && Satisfies(In(AccountID, accounts), p.0)
  {
    if pairs != [] {
      ScanJoinFacts(pairs[..|pairs| - 1], preds, accounts);
      assert pairs == pairs[..|pairs| - 1] + [pairs[|pairs| - 1]];
    }
  }

  lemma {:induction false} FirstAppearancesOccur(js: seq<(Row, Row)>, n: nat, g: Row)
    requires n <= |js| && g in FirstAppearances(js, n)
    ensures exists j | 0 <= j < n :: js[j].1 == g
  {
    if g in FirstAppearances(js, n - 1) {
      FirstAppearancesOccur(js, n - 1, g);
    } else {
      assert js[n - 1].1 == g;
    }
  }

  lemma {:induction false} FirstAppearancesCover(js: seq<(Row, Row)>, n: nat, j: nat)
    requires j < n <= |js|
    ensures exists g | g in FirstAppearances(js, n) :: Key(g, ID) == Key(js[j].1, ID)
  {
    var rest, all := FirstAppearances(js, n - 1), FirstAppearances(js, n);
    if SeenUpTo(js, n - 1, Key(js[j].1, ID)) {
      var m :| 0 <= m < n - 1 && Key(js[m].1, ID) == Key(js[j].1, ID);
      FirstAppearancesCover(js, n - 1, m);
      var g :| g in rest && Key(g, ID) == Key(js[m].1, ID);
      assert g in all;
    } else {
      assert all == rest + [js[n - 1].1];
      assert all[|rest|] in all;
    }
  }

  lemma {:induction false} FirstAppearancesDistinct(js: seq<(Row, Row)>, n: nat)
    requires n <= |js|
    ensures DistinctIds(FirstAppearances(js, n))
  {
    if n > 0 {
      FirstAppearancesDistinct(js, n - 1);
      var rest, last := FirstAppearances(js, n - 1), js[n - 1].1;
      if !SeenUpTo(js, n - 1, Key(last, ID)) {
        forall i | 0 <= i < |rest|
          ensures Key(rest[i], ID) != Key(last, ID)
        {
          FirstAppearancesOccur(js, n - 1, rest[i]);
        }
      }
    }
  }

  lemma {:induction false} LinkedGroupsMembers(js: seq<(Row, Row)>, groups: seq<Row>, n: nat, k: int, g: Row)
    requires n <= |groups|
    ensures g in LinkedGroups(js, groups, n, k) <==> g in groups[..n] && LinkedUpTo(js, |js|, k, Key(g, ID))
  {
    if n > 0 {
      LinkedGroupsMembers(js, groups, n - 1, k, g);
      assert groups[..n] == groups[..n - 1] + [groups[n - 1]];
    }
  }

  lemma {:induction false} LinkedGroupsDistinct(js: seq<(Row, Row)>, groups: seq<Row>, n: nat, k: int)
    requires n <= |groups| && DistinctIds(groups)
    ensures DistinctIds(LinkedGroups(js, groups, n, k))
  {
    if n > 0 {
      LinkedGroupsDistinct(js, groups, n - 1, k);
      var rest := LinkedGroups(js, groups, n - 1, k);
      forall i | 0 <= i < |rest|
        ensures Key(rest[i], ID) != Key(groups[n - 1], ID)
      {
        LinkedGroupsMembers(js, groups, n - 1, k, rest[i]);
        var j :| 0 <= j < n - 1 && groups[j] == rest[i];
      }
    }
  }

  lemma {:induction false} DistinctSameElements(a: seq<Row>, b: seq<Row>)
    requires DistinctIds(a) && DistinctIds(b)
    requires forall r :: r in a <==> r in b
    ensures multiset(a) == multiset(b)
  {
    DistinctOnce(a);
    DistinctOnce(b);
    assert forall r :: multiset(a)[r] == multiset(b)[r];
  }

  lemma {:induction false} DistinctOnce(a: seq<Row>)
    requires DistinctIds(a)
    ensures forall r :: multiset(a)[r] == if r in a then 1 else 0
  {
    if a != [] {
      var front := a[..|a| - 1];
      assert a == front + [a[|a| - 1]];
      DistinctOnce(front);
    }
  }

  lemma ProjectedDistinct(rows: seq<Row>, columns: seq<Column>)
    requires DistinctIds(rows) && ID in columns
    ensures DistinctIds(ProjectAll(rows, columns))
  {
    assert forall i | 0 <= i < |rows| :: Key(Project(rows[i], columns), ID) == Key(rows[i], ID);
  }

  lemma JoinRowsMembers(db: Db, base: Base, nodes: seq<Row>, p: (Row, Row))
    requires Unlimited(base)
    ensures p in JoinRows(db, base, nodes) <==>
            p in db.joinScan && Holds(base.preds, p.1) && Satisfies(In(AccountID, PlainKeySet(nodes, ID)), p.0)
  {
    ScanJoinFacts(db.joinScan, base.preds, PlainKeySet(nodes, ID));
  }

  /** What the batched query finds for account `k`, before columns are selected. */
  ghost predicate InBatch(db: Db, base: Base, nodes: seq<Row>, k: int, g: Row) {
    var js := JoinRows(db, base, nodes);
    g in FirstAppearances(js, |js|) && LinkedUpTo(js, |js|, k, Key(g, ID))
  }

  lemma ProjectedMembers(rows: seq<Row>, columns: seq<Column>, r: Row)
    ensures r in rows ==> Project(r, columns) in ProjectAll(rows, columns)
    ensures r in ProjectAll(rows, columns) ==> exists s | s in rows :: Project(s, columns) == r
  {
    if r in rows {
      var i :| 0 <= i < |rows| && rows[i] == r;
      assert ProjectAll(rows, columns)[i] == Project(r, columns);
    }
    if r in ProjectAll(rows, columns) {
      var i :| 0 <= i < |rows| && ProjectAll(rows, columns)[i] == r;
      assert rows[i] in rows;
    }
  }

  /** The distinct groups of the batch, restricted to one account, are that account's groups. */
  lemma GroupsAgree(db: Db, base: Base, nodes: seq<Row>, k: int)
    requires ValidDb(db) && Unlimited(base) && k in PlainKeySet(nodes, ID)
    ensures var js := JoinRows(db, base, nodes);
            var columns := ColumnsWithId(GroupTable(db), base);
            var groups := ProjectAll(FirstAppearances(js, |js|), columns);
            multiset(LinkedGroups(js, groups, |groups|, k)) == multiset(LookUpGroups(db, base, k))
  {
    var js := JoinRows(db, base, nodes);
    var columns := ColumnsWithId(GroupTable(db), base);
    var firsts := FirstAppearances(js, |js|);
    var groups := ProjectAll(firsts, columns);
    var batch := LinkedGroups(js, groups, |groups|, k);
    var mine := Scan(db.groups, base.preds + [LinkPredicate(db, k)]);
    FirstAppearancesDistinct(js, |js|);
    ProjectedDistinct(firsts, columns);
    LinkedGroupsDistinct(js, groups, |groups|, k);
    ScanFacts(db.groups, base.preds + [LinkPredicate(db, k)]);
    ProjectedDistinct(mine, columns);
    assert groups[..|groups|] == groups;
    forall g
      ensures g in batch <==> g in ProjectAll(mine, columns)
    {
      LinkedGroupsMembers(js, groups, |groups|, k, g);
      ProjectedMembers(firsts, columns, g);
      ProjectedMembers(mine, columns, g);
      if g in batch {
        var r :| r in firsts && Project(r, columns) == g;
        BatchGroupIsMine(db, base, nodes, k, r);
        ProjectedMembers(mine, columns, r);
      }
      if g in ProjectAll(mine, columns) {
        var r :| r in mine && Project(r, columns) == g;
        MyGroupIsInBatch(db, base, nodes, k, r);
        ProjectedMembers(firsts, columns, r);
      }
    }
    DistinctSameElements(batch, ProjectAll(mine, columns));
  }

  lemma MyGroups(db: Db, base: Base, k: int, g: Row)
    ensures g in Scan(db.groups, base.preds + [LinkPredicate(db, k)])
       <==> g in db.groups && Holds(base.preds, g) && LinkedTo(db.accountGroups, k, g)
  {
    var all := base.preds + [LinkPredicate(db, k)];
    assert Satisfies(all[|base.preds|], g) == LinkedTo(db.accountGroups, k, g);
    assert forall i | 0 <= i < |base.preds| :: all[i] == base.preds[i];
    ScanFacts(db.groups, all);
  }

  lemma BatchGroupIsMine(db: Db, base: Base, nodes: seq<Row>, k: int, g: Row)
    requires ValidDb(db) && Unlimited(base) && InBatch(db, base, nodes, k, g)
    ensures g in Scan(db.groups, base.preds + [LinkPredicate(db, k)])
  {
    var js := JoinRows(db, base, nodes);
    FirstAppearancesOccur(js, |js|, g);
    var j :| 0 <= j < |js| && js[j].1 == g;
    JoinRowsMembers(db, base, nodes, js[j]);
    var l :| 0 <= l < |js| && Key(js[l].0, AccountID) == k && Key(js[l].1, ID) == Key(g, ID);
    JoinRowsMembers(db, base, nodes, js[l]);
    SameIdSameRow(db.groups, js[l].1, g);
    assert IntAt(js[l].0, AccountID) == Some(k);
    MyGroups(db, base, k, g);
  }

  lemma SameIdSameRow(rows: seq<Row>, a: Row, b: Row)
    requires DistinctIds(rows) && a in rows && b in rows && Key(a, ID) == Key(b, ID)
    ensures a == b
  {
    var i :| 0 <= i < |rows| && rows[i] == a;
    var j :| 0 <= j < |rows| && rows[j] == b;
    assert i == j by {
      if i < j { assert false; }
      if j < i { assert false; }
    }
  }

  lemma MyGroupIsInBatch(db: Db, base: Base, nodes: seq<Row>, k: int, g: Row)
    requires ValidDb(db) && Unlimited(base) && k in PlainKeySet(nodes, ID)
    requires g in Scan(db.groups, base.preds + [LinkPredicate(db, k)])
    ensures InBatch(db, base, nodes, k, g)
  {
    var js := JoinRows(db, base, nodes);
    MyGroups(db, base, k, g);
    var l :| l in db.accountGroups && IntAt(l, AccountID) == Some(k) && JoinsOn(l, g);
    JoinRowsMembers(db, base, nodes, (l, g));
    var j :| 0 <= j < |js| && js[j] == (l, g);
    FirstAppearancesCover(js, |js|, j);
    var h :| h in FirstAppearances(js, |js|) && Key(h, ID) == Key(js[j].1, ID);
    FirstAppearancesOccur(js, |js|, h);
    var m :| 0 <= m < |js| && js[m].1 == h;
    JoinRowsMembers(db, base, nodes, js[m]);
    SameIdSameRow(db.groups, h, g);
  }

  // ------------------------------------------------- recursion through edges

  lemma NestedQueriesUnlimited(q: AccountQuery, keys: set<int>)
    requires NestedUnlimited(q)
    ensures q.withParent.Some? ==> NestedUnlimited(ParentsQuery(q, keys))
    ensures q.withChildren.Some? ==> NestedUnlimited(ChildrenQuery(q, keys))
    ensures q.withAccountGroups.Some? ==> NestedUnlimitedGroup(AccountGroupsQuery(q, keys))
  {
  }

  /** What one account looks like does not depend on the predicates that found it. */
  lemma NaiveIgnoresPredicates(db: Db, q: AccountQuery, base: Base, row: Row)
    requires base.fields == q.base.fields
    ensures NaiveAccount(db, q, row) == NaiveAccount(db, q.(base := base), row)
  {
    var p := q.(base := base);
    var id := Key(row, ID);
    assert AccountColumns(db, p) == AccountColumns(db, q);
    if q.withChildren.Some? { assert ChildrenQuery(p, {id}) == ChildrenQuery(q, {id}); }
    if q.withAccountGroups.Some? { assert AccountGroupsQuery(p, {id}) == AccountGroupsQuery(q, {id}); }
    var fk := IntAt(row, ParentAccountID);
    if q.withParent.Some? && fk.Some? { assert ParentsQuery(p, {fk.value}) == ParentsQuery(q, {fk.value}); }
  }

  lemma NaiveGroupIgnoresPredicates(db: Db, q: AccountGroupQuery, base: Base, row: Row)
    requires base.fields == q.base.fields
    ensures NaiveAccountGroup(db, q, row) == NaiveAccountGroup(db, q.(base := base), row)
  {
    var p := q.(base := base);
    if q.withAccount.Some? {
      assert AccountsQuery(p, {Key(row, AccountID)}) == AccountsQuery(q, {Key(row, AccountID)});
    }
  }

  lemma BatchAt(db: Db, q: AccountQuery, i: nat)
    requires i < |BatchAccounts(db, q)|
    ensures BatchAccounts(db, q)[i] == LoadedAccount(db, q, AccountNodes(db, q), i)
    ensures BatchAccounts(db, q)[i].values == AccountNodes(db, q)[i]
  {
  }

  lemma BatchGroupAt(db: Db, q: AccountGroupQuery, i: nat)
    requires i < |BatchAccountGroups(db, q)|
    ensures BatchAccountGroups(db, q)[i] == LoadedAccountGroup(db, q, AccountGroupNodes(db, q), i)
    ensures BatchAccountGroups(db, q)[i].values == AccountGroupNodes(db, q)[i]
  {
  }

  lemma BatchKeys(db: Db, q: AccountQuery, c: Column)
    requires c in AccountColumns(db, q)
    ensures AccountKeys(BatchAccounts(db, q), c) == Keys(Select(db.accounts, q.base), c)
  {
    ProjectedKeys(Select(db.accounts, q.base), AccountColumns(db, q), c);
    var ts, nodes := BatchAccounts(db, q), AccountNodes(db, q);
    forall i | 0 <= i < |ts| ensures ts[i].values == nodes[i] { BatchAt(db, q, i); }
    assert AccountKeys(ts, c) == Keys(nodes, c);
  }

  lemma BatchGroupKeys(db: Db, q: AccountGroupQuery, c: Column)
    requires c in AccountGroupColumns(q)
    ensures AccountGroupKeys(BatchAccountGroups(db, q), c) == Keys(Select(db.accountGroups, q.base), c)
  {
    ProjectedKeys(Select(db.accountGroups, q.base), AccountGroupColumns(q), c);
    var ts, nodes := BatchAccountGroups(db, q), AccountGroupNodes(db, q);
    forall i | 0 <= i < |ts| ensures ts[i].values == nodes[i] { BatchGroupAt(db, q, i); }
    assert AccountGroupKeys(ts, c) == Keys(nodes, c);
  }

  /** Picking the accounts of one key out of a batch agrees with looking that key up alone. */
  lemma OwnedAccountsAgree(db: Db, p: AccountQuery, c: Column, keys: set<int>, k: int)
    requires PerOwner(db.accounts, p.base, c, keys) && k in keys && c in AccountColumns(db, p)
    requires var q := p.(base := Narrow(p.base, c, keys));
             SameAccounts(BatchAccounts(db, q), NaiveAccounts(db, q))
    ensures var found := BatchAccounts(db, p.(base := Narrow(p.base, c, keys)));
            SameAccounts(Owned(found, AccountKeys(found, c), k), NaiveAccounts(db, p.(base := Narrow(p.base, c, {k}))))
  {
    var q, q1 := p.(base := Narrow(p.base, c, keys)), p.(base := Narrow(p.base, c, {k}));
    var found, rows := BatchAccounts(db, q), Select(db.accounts, q.base);
    assert AccountColumns(db, q) == AccountColumns(db, p);
    BatchKeys(db, q, c);
    OwnedPositions(found, rows, Keys(rows, c), |rows|, k);
    var mine := Owned(found, Keys(rows, c), k);
    var alone := NaiveAccounts(db, q1);
    forall x | 0 <= x < |mine|
      ensures Same(mine[x], alone[x])
    {
      var j := PositionsUpTo(Keys(rows, c), |rows|, k)[x];
      assert Same(found[j], NaiveAccounts(db, q)[j]);
      NaiveIgnoresPredicates(db, q, q1.base, rows[j]);
      assert q1 == q.(base := q1.base);
    }
  }

  lemma OwnedAccountGroupsAgree(db: Db, p: AccountGroupQuery, c: Column, keys: set<int>, k: int)
    requires PerOwner(db.accountGroups, p.base, c, keys) && k in keys && c in AccountGroupColumns(p)
    requires var q := p.(base := Narrow(p.base, c, keys));
             forall i | 0 <= i < |BatchAccountGroups(db, q)| ::
               SameAccountGroup(BatchAccountGroups(db, q)[i], NaiveAccountGroups(db, q)[i])
    ensures var found := BatchAccountGroups(db, p.(base := Narrow(p.base, c, keys)));
            var mine := Owned(found, AccountGroupKeys(found, c), k);
            var alone := NaiveAccountGroups(db, p.(base := Narrow(p.base, c, {k})));
            |mine| == |alone| && forall x | 0 <= x < |mine| :: SameAccountGroup(mine[x], alone[x])
  {
    var q, q1 := p.(base := Narrow(p.base, c, keys)), p.(base := Narrow(p.base, c, {k}));
    var found, rows := BatchAccountGroups(db, q), Select(db.accountGroups, q.base);
    assert AccountGroupColumns(q) == AccountGroupColumns(p);
    BatchGroupKeys(db, q, c);
    OwnedPositions(found, rows, Keys(rows, c), |rows|, k);
    var mine := Owned(found, Keys(rows, c), k);
    var alone := NaiveAccountGroups(db, q1);
    forall x | 0 <= x < |mine|
      ensures SameAccountGroup(mine[x], alone[x])
    {
      var j := PositionsUpTo(Keys(rows, c), |rows|, k)[x];
      assert SameAccountGroup(found[j], NaiveAccountGroups(db, q)[j]);
      NaiveGroupIgnoresPredicates(db, q, q1.base, rows[j]);
      assert q1 == q.(base := q1.base);
    }
  }

  /** Many-to-one: the last found account with the key agrees with the last one looked up alone. */
  lemma LatestAccountAgrees(db: Db, p: AccountQuery, keys: set<int>, fk: Option<int>)
    requires PerOwner(db.accounts, p.base, ID, keys) && (fk.Some? ==> fk.value in keys)
    requires var q := p.(base := Narrow(p.base, ID, keys));
             SameAccounts(BatchAccounts(db, q), NaiveAccounts(db, q))
    ensures var found := BatchAccounts(db, p.(base := Narrow(p.base, ID, keys)));
            SameOption(Latest(found, AccountKeys(found, ID), fk),
                       if fk.None? then None
                       else LastOf(NaiveAccounts(db, p.(base := Narrow(p.base, ID, {fk.value})))))
  {
    var found := BatchAccounts(db, p.(base := Narrow(p.base, ID, keys)));
    if fk.Some? {
      OwnedAccountsAgree(db, p, ID, keys, fk.value);
      LatestIsLastOwned(found, AccountKeys(found, ID), |found|, fk.value, None);
    } else {
      LatestOfMissing(found, AccountKeys(found, ID), |found|);
    }
  }

  /** The scanned nodes keep their identifiers and every foreign key that a requested edge reads. */
  lemma NodeKeys(db: Db, q: AccountQuery, i: nat)
    requires ValidDb(db) && i < |Select(db.accounts, q.base)|
    ensures var rows, nodes := Select(db.accounts, q.base), AccountNodes(db, q);
            && HoldsId(nodes, i)
            && Key(nodes[i], ID) == Key(rows[i], ID) && Key(nodes[i], ID) in PlainKeySet(nodes, ID)
            && (q.withProxy.Some? ==> IntAt(nodes[i], ProxyID) == IntAt(rows[i], ProxyID))
            && (q.withParent.Some? ==> IntAt(nodes[i], ParentAccountID) == IntAt(rows[i], ParentAccountID))
  {
    var rows, nodes := Select(db.accounts, q.base), AccountNodes(db, q);
    ScanFacts(db.accounts, q.base.preds);
    assert DistinctIds(rows);
    assert ID in AccountColumns(db, q);
    ProjectedDistinct(rows, AccountColumns(db, q));
    assert nodes[i] in nodes;
  }

  lemma GroupNodeKeys(db: Db, q: AccountGroupQuery, i: nat)
    requires i < |Select(db.accountGroups, q.base)|
    ensures var rows, nodes := Select(db.accountGroups, q.base), AccountGroupNodes(db, q);
            && (q.withAccount.Some? ==> Key(nodes[i], AccountID) == Key(rows[i], AccountID))
            && (q.withGroup.Some? ==> Key(nodes[i], GroupID) == Key(rows[i], GroupID))
            && Key(nodes[i], AccountID) in PlainKeySet(nodes, AccountID)
            && Key(nodes[i], GroupID) in PlainKeySet(nodes, GroupID)
  {
    var nodes := AccountGroupNodes(db, q);
    assert nodes[i] in nodes;
  }

  /** Every nested query below the root, run on the batch it is run on, finds for each key what it finds for it alone. */
  ghost predicate Separable(db: Db, q: AccountQuery)
    decreases Size(q)
  {
    var nodes := AccountNodes(db, q);
    var ids := PlainKeySet(nodes, ID);
    && UnlimitedLeaf(q.withGroups)
    && (q.withProxy.Some? ==> PerOwner(db.proxies, q.withProxy.value, ID, KeySet(nodes, ProxyID)))
    && (q.withUsageLogs.Some? ==> PerOwner(db.usageLogs, ForceColumn(q.withUsageLogs.value, AccountID), AccountID, ids))
    && (q.withParent.Some? ==>
          var keys := KeySet(nodes, ParentAccountID);
          PerOwner(db.accounts, q.withParent.value.base, ID, keys) && Separable(db, ParentsQuery(q, keys)))
    && (q.withChildren.Some? ==>
          && PerOwner(db.accounts, ForceColumn(q.withChildren.value.base, ParentAccountID), ParentAccountID, ids)
          && Separable(db, ChildrenQuery(q, ids)))
    && (q.withAccountGroups.Some? ==>
          && PerOwner(db.accountGroups, ForceColumn(q.withAccountGroups.value.base, AccountID), AccountID, ids)
          && SeparableGroup(db, AccountGroupsQuery(q, ids)))
  }

  ghost predicate SeparableGroup(db: Db, q: AccountGroupQuery)
    decreases GroupSize(q)
  {
    var nodes := AccountGroupNodes(db, q);
    && (q.withAccount.Some? ==>
          var keys := PlainKeySet(nodes, AccountID);
          PerOwner(db.accounts, q.withAccount.value.base, ID, keys) && Separable(db, AccountsQuery(q, keys)))
    && (q.withGroup.Some? ==> PerOwner(db.groups, q.withGroup.value, ID, PlainKeySet(nodes, GroupID)))
  }

  lemma {:induction false} UnlimitedSeparable(db: Db, q: AccountQuery)
    requires NestedUnlimited(q)
    ensures Separable(db, q)
    decreases Size(q)
  {
    var nodes := AccountNodes(db, q);
    var ids := PlainKeySet(nodes, ID);
    NestedQueriesUnlimited(q, ids);
    NestedQueriesUnlimited(q, KeySet(nodes, ParentAccountID));
    if q.withProxy.Some? { UnlimitedPerOwner(db.proxies, q.withProxy.value, ID, KeySet(nodes, ProxyID)); }
    if q.withUsageLogs.Some? {
      ForcedColumn(q.withUsageLogs.value, AccountID);
      UnlimitedPerOwner(db.usageLogs, ForceColumn(q.withUsageLogs.value, AccountID), AccountID, ids);
    }
    if q.withParent.Some? {
      UnlimitedPerOwner(db.accounts, q.withParent.value.base, ID, KeySet(nodes, ParentAccountID));
      UnlimitedSeparable(db, ParentsQuery(q, KeySet(nodes, ParentAccountID)));
    }
    if q.withChildren.Some? {
      ForcedColumn(q.withChildren.value.base, ParentAccountID);
      UnlimitedPerOwner(db.accounts, ForceColumn(q.withChildren.value.base, ParentAccountID), ParentAccountID, ids);
      UnlimitedSeparable(db, ChildrenQuery(q, ids));
    }
    if q.withAccountGroups.Some? {
      ForcedColumn(q.withAccountGroups.value.base, AccountID);
      UnlimitedPerOwner(db.accountGroups, ForceColumn(q.withAccountGroups.value.base, AccountID), AccountID, ids);
      UnlimitedSeparableGroup(db, AccountGroupsQuery(q, ids));
    }
  }

  lemma {:induction false} UnlimitedSeparableGroup(db: Db, q: AccountGroupQuery)
    requires NestedUnlimitedGroup(q)
    ensures SeparableGroup(db, q)
    decreases GroupSize(q)
  {
    var nodes := AccountGroupNodes(db, q);
    if q.withAccount.Some? {
      UnlimitedPerOwner(db.accounts, q.withAccount.value.base, ID, PlainKeySet(nodes, AccountID));
      UnlimitedSeparable(db, AccountsQuery(q, PlainKeySet(nodes, AccountID)));
    }
    if q.withGroup.Some? { UnlimitedPerOwner(db.groups, q.withGroup.value, ID, PlainKeySet(nodes, GroupID)); }
  }

  /** Main theorem: batched eager loading is per-entity lookup, at every depth of the query. */
  lemma BatchedIsPerEntity(db: Db, q: AccountQuery)
    requires ValidDb(db) && NestedUnlimited(q)
    ensures SameAccounts(BatchAccounts(db, q), NaiveAccounts(db, q))
  {
    UnlimitedSeparable(db, q);
    SeparableIsPerEntity(db, q);
  }

  /** With offsets and limits too, as long as they take from every batch what they take from each key alone. */
  lemma {:induction false} SeparableIsPerEntity(db: Db, q: AccountQuery)
    requires ValidDb(db) && Separable(db, q)
    ensures SameAccounts(BatchAccounts(db, q), NaiveAccounts(db, q))
    decreases Size(q), 1
  {
    var rows := Select(db.accounts, q.base);
    forall i | 0 <= i < |rows|
      ensures Same(BatchAccounts(db, q)[i], NaiveAccounts(db, q)[i])
    {
      AccountAgrees(db, q, i);
    }
  }

  lemma {:induction false} AccountAgrees(db: Db, q: AccountQuery, i: nat)
    requires ValidDb(db) && Separable(db, q) && i < |Select(db.accounts, q.base)|
    ensures Same(BatchAccounts(db, q)[i], NaiveAccounts(db, q)[i])
    decreases Size(q), 0, 1
  {
    var nodes, row := AccountNodes(db, q), Select(db.accounts, q.base)[i];
    BatchAt(db, q, i);
    NodeKeys(db, q, i);
    LeafEdgesAgree(db, q, i);
    ParentAgrees(db, q, i);
    ChildrenAgree(db, q, i);
    AccountGroupsAgree(db, q, i);
    assert NaiveAccounts(db, q)[i] == NaiveAccount(db, q, row);
  }

  lemma LeafEdgesAgree(db: Db, q: AccountQuery, i: nat)
    requires ValidDb(db) && Separable(db, q) && i < |Select(db.accounts, q.base)|
    ensures var nodes, alone := AccountNodes(db, q), NaiveAccount(db, q, Select(db.accounts, q.base)[i]);
            && multiset(GroupsOf(db, q, nodes, i)) == multiset(alone.groups)
            && ProxyOf(db, q, nodes, i) == alone.proxy
            && UsageLogsOf(db, q, nodes, i) == alone.usageLogs
  {
    var rows, nodes := Select(db.accounts, q.base), AccountNodes(db, q);
    var id := Key(rows[i], ID);
    NodeKeys(db, q, i);
    if q.withGroups.Some? {
      GroupsAgree(db, q.withGroups.value, nodes, id);
    }
    if q.withProxy.Some? {
      LatestLeaf(db.proxies, ProxyTable(db), q.withProxy.value, KeySet(nodes, ProxyID), IntAt(rows[i], ProxyID));
    }
    if q.withUsageLogs.Some? {
      UsageLogsAgree(db, q, nodes, id);
    }
  }

  lemma UsageLogsAgree(db: Db, q: AccountQuery, nodes: seq<Row>, id: int)
    requires q.withUsageLogs.Some? && id in PlainKeySet(nodes, ID)
    requires PerOwner(db.usageLogs, ForceColumn(q.withUsageLogs.value, AccountID), AccountID, PlainKeySet(nodes, ID))
    ensures var found := FoundUsageLogs(db, q, nodes);
            Owned(found, Keys(found, AccountID), id)
            == Leaves(db.usageLogs, UsageLogTable(db), Narrow(ForceColumn(q.withUsageLogs.value, AccountID), AccountID, {id}))
  {
    ForcedColumn(q.withUsageLogs.value, AccountID);
    OwnedLeaves(db.usageLogs, UsageLogTable(db), ForceColumn(q.withUsageLogs.value, AccountID), AccountID, PlainKeySet(nodes, ID), id);
  }

  lemma {:induction false} ParentAgrees(db: Db, q: AccountQuery, i: nat)
    requires ValidDb(db) && Separable(db, q) && i < |Select(db.accounts, q.base)|
    ensures SameOption(ParentOf(db, q, AccountNodes(db, q), i),
                       if q.withParent.None? then None
                       else LookUpParent(db, q, IntAt(Select(db.accounts, q.base)[i], ParentAccountID)))
    decreases Size(q), 0, 0
  {
    if q.withParent.Some? {
      var nodes, row := AccountNodes(db, q), Select(db.accounts, q.base)[i];
      var keys, fk := KeySet(nodes, ParentAccountID), IntAt(row, ParentAccountID);
      NodeKeys(db, q, i);
      SeparableIsPerEntity(db, ParentsQuery(q, keys));
      LatestAccountAgrees(db, q.withParent.value, keys, fk);
      if fk.Some? {
        assert ParentsQuery(q, {fk.value}).base == Narrow(q.withParent.value.base, ID, {fk.value});
      }
    }
  }

  lemma {:induction false} ChildrenAgree(db: Db, q: AccountQuery, i: nat)
    requires ValidDb(db) && Separable(db, q) && i < |Select(db.accounts, q.base)|
    ensures SameAccounts(ChildrenOf(db, q, AccountNodes(db, q), i),
                         NaiveAccount(db, q, Select(db.accounts, q.base)[i]).children)
    decreases Size(q), 0, 0
  {
    if q.withChildren.Some? {
      var nodes, row := AccountNodes(db, q), Select(db.accounts, q.base)[i];
      var keys, p := PlainKeySet(nodes, ID), q.withChildren.value;
      NodeKeys(db, q, i);
      ForcedColumn(p.base, ParentAccountID);
      SeparableIsPerEntity(db, ChildrenQuery(q, keys));
      OwnedAccountsAgree(db, p.(base := ForceColumn(p.base, ParentAccountID)), ParentAccountID, keys, Key(row, ID));
    }
  }

  lemma {:induction false} AccountGroupsAgree(db: Db, q: AccountQuery, i: nat)
    requires ValidDb(db) && Separable(db, q) && i < |Select(db.accounts, q.base)|
    ensures var batch := AccountGroupsOf(db, q, AccountNodes(db, q), i);
            var alone := NaiveAccount(db, q, Select(db.accounts, q.base)[i]).accountGroups;
            |batch| == |alone| && forall x | 0 <= x < |batch| :: SameAccountGroup(batch[x], alone[x])
    decreases Size(q), 0, 0
  {
    if q.withAccountGroups.Some? {
      var nodes, row := AccountNodes(db, q), Select(db.accounts, q.base)[i];
      var keys, p := PlainKeySet(nodes, ID), q.withAccountGroups.value;
      NodeKeys(db, q, i);
      ForcedColumn(p.base, AccountID);
      SeparableGroupsArePerEntity(db, AccountGroupsQuery(q, keys));
      OwnedAccountGroupsAgree(db, p.(base := ForceColumn(p.base, AccountID)), AccountID, keys, Key(row, ID));
    }
  }

  /** The same for account-group rows, the other half of the mutual recursion. */
  lemma BatchedGroupsArePerEntity(db: Db, q: AccountGroupQuery)
    requires ValidDb(db) && NestedUnlimitedGroup(q)
    ensures forall i | 0 <= i < |BatchAccountGroups(db, q)| ::
              SameAccountGroup(BatchAccountGroups(db, q)[i], NaiveAccountGroups(db, q)[i])
  {
    UnlimitedSeparableGroup(db, q);
    SeparableGroupsArePerEntity(db, q);
  }

  lemma {:induction false} SeparableGroupsArePerEntity(db: Db, q: AccountGroupQuery)
    requires ValidDb(db) && SeparableGroup(db, q)
    ensures forall i | 0 <= i < |BatchAccountGroups(db, q)| ::
              SameAccountGroup(BatchAccountGroups(db, q)[i], NaiveAccountGroups(db, q)[i])
    decreases GroupSize(q), 1
  {
    var rows, nodes := Select(db.accountGroups, q.base), AccountGroupNodes(db, q);
    forall i | 0 <= i < |rows|
      ensures SameAccountGroup(BatchAccountGroups(db, q)[i], NaiveAccountGroups(db, q)[i])
    {
      GroupNodeKeys(db, q, i);
      BatchGroupAt(db, q, i);
      OwnerAgrees(db, q, i);
      if q.withGroup.Some? {
        LatestLeaf(db.groups, GroupTable(db), q.withGroup.value, PlainKeySet(nodes, GroupID), Some(Key(rows[i], GroupID)));
      }
      assert NaiveAccountGroups(db, q)[i] == NaiveAccountGroup(db, q, rows[i]);
    }
  }

  lemma {:induction false} OwnerAgrees(db: Db, q: AccountGroupQuery, i: nat)
    requires ValidDb(db) && SeparableGroup(db, q) && i < |Select(db.accountGroups, q.base)|
    ensures SameOption(OwnerOf(db, q, AccountGroupNodes(db, q), i),
                       NaiveAccountGroup(db, q, Select(db.accountGroups, q.base)[i]).account)
    decreases GroupSize(q), 0
  {
    if q.withAccount.Some? {
      var nodes, row := AccountGroupNodes(db, q), Select(db.accountGroups, q.base)[i];
      var keys := PlainKeySet(nodes, AccountID);
      GroupNodeKeys(db, q, i);
      SeparableIsPerEntity(db, AccountsQuery(q, keys));
      LatestAccountAgrees(db, q.withAccount.value, keys, Some(Key(row, AccountID)));
    }
  }
}
