/** Which rows and columns a query reads, and how many queries its tree holds. */
module EagerRows {
  import opened Basics
  import opened EntSchema
  import opened EagerSpec
  import opened EagerTheorems

  // -------------------------------------------------------------------------- the rows

  /** Rows come in table order, each decided on its own. */
  lemma {:induction false} ScanInOrder(a: seq<Row>, b: seq<Row>, preds: seq<Predicate>)
    ensures Scan(a + b, preds) == Scan(a, preds) + Scan(b, preds)
    ensures forall r :: Scan([r], preds) == if Holds(preds, r) then [r] else []
  {
    forall r ensures Scan([r], preds) == if Holds(preds, r) then [r] else [] {
      assert [r][..0] == [];
    }
    if b == [] {
      assert a + b == a;
    } else {
      assert (a + b)[..|a + b| - 1] == a + b[..|b| - 1];
      ScanInOrder(a, b[..|b| - 1], preds);
    }
  }

  /** Joined rows come in the order of the join: those of the asked accounts whose group satisfies the predicates. */
  lemma {:induction false} ScanJoinInOrder(a: seq<(Row, Row)>, b: seq<(Row, Row)>, preds: seq<Predicate>, accounts: set<int>)
    ensures ScanJoin(a + b, preds, accounts) == ScanJoin(a, preds, accounts) + ScanJoin(b, preds, accounts)
    ensures forall l, g :: ScanJoin([(l, g)], preds, accounts)
              == if Holds(preds, g) && IntAt(l, AccountID).Some? && IntAt(l, AccountID).value in accounts then [(l, g)] else []
  {
    forall l, g
      ensures ScanJoin([(l, g)], preds, accounts)
           == if Holds(preds, g) && IntAt(l, AccountID).Some? && IntAt(l, AccountID).value in accounts then [(l, g)] else []
    {
      assert [(l, g)][..0] == [];
    }
    if b == [] {
      assert a + b == a;
    } else {
      assert (a + b)[..|a + b| - 1] == a + b[..|b| - 1];
      ScanJoinInOrder(a, b[..|b| - 1], preds, accounts);
    }
  }

  /** As many rows as are left behind the offset, up to the limit, without gaps. */
  lemma WindowMeaning<T>(base: Base, s: seq<T>)
    ensures var left := if base.offset <= |s| then |s| - base.offset else 0;
            |Window(base, s)| == if base.limit.Some? && base.limit.value < left then base.limit.value else left
    ensures forall j | 0 <= j < |Window(base, s)| :: base.offset + j < |s| && Window(base, s)[j] == s[base.offset + j]
  {
  }

  // ------------------------------------------------------------------------ the columns

  lemma AddedOnce(columns: seq<Column>, c: Column)
    requires NoDuplicates(columns)
    ensures NoDuplicates(AddOnce(columns, c))
    ensures c !in columns ==> NoDuplicates([c] + columns)
  {
    assert forall i | 0 <= i < |columns| :: columns[i] in columns;
  }

  lemma {:induction false} WithoutOnce(fields: seq<Column>, c: Column)
    requires NoDuplicates(fields)
    ensures NoDuplicates(Without(fields, c))
  {
    if fields != [] {
      var front, last := fields[..|fields| - 1], fields[|fields| - 1];
      WithoutOnce(front, c);
      assert last !in front && last !in Without(front, c);
      AddedOnce(Without(front, c), last);
    }
  }

  lemma LeafColumnsOnce(table: seq<Column>, base: Base)
    requires NoDuplicates(base.fields) && base.fields != []
    ensures NoDuplicates(ColumnsWithId(table, base)) && ColumnsWithId(table, base)[0] == ID
  {
    WithoutOnce(base.fields, ID);
    AddedOnce(Without(base.fields, ID), ID);
  }

  /** A selection without repetitions is read without repetitions, the added keys included. */
  lemma ColumnsOnce(db: Db, q: AccountQuery)
    requires NoDuplicates(q.base.fields) && q.base.fields != []
    ensures NoDuplicates(AccountColumns(db, q)) && AccountColumns(db, q)[0] == ID
  {
    var columns := ColumnsWithId(AccountTable(db), q.base);
    LeafColumnsOnce(AccountTable(db), q.base);
    AddedOnce(columns, ProxyID);
    AddedOnce(AddOnceIf(q.withProxy.Some?, columns, ProxyID), ParentAccountID);
  }

  /** The columns of an account query: all of the table, or the ID, what is selected, and the keys that its edges need. */
  predicate ReadsColumn(db: Db, q: AccountQuery, c: Column) {
    if q.base.fields == [] then c in [ID, ProxyID, ParentAccountID] || c in db.accountFields
    else || c == ID || c in q.base.fields
         || (c == ProxyID && q.withProxy.Some?) || (c == ParentAccountID && q.withParent.Some?)
  }

  predicate GroupReadsColumn(q: AccountGroupQuery, c: Column) {
    if q.base.fields == [] then c in [AccountID, GroupID, Other("priority"), Other("created_at")]
    else || c in q.base.fields
         || (c == AccountID && q.withAccount.Some?) || (c == GroupID && q.withGroup.Some?)
  }

  /** A loaded account carries the columns that its query reads, with the cells of its row. */
  lemma AccountValues(db: Db, q: AccountQuery, i: nat)
    requires i < |BatchAccounts(db, q)|
    ensures var row, values := Window(q.base, Scan(db.accounts, q.base.preds))[i], BatchAccounts(db, q)[i].values;
            && (forall c :: c in values <==> ReadsColumn(db, q, c))
            && (forall c | c in values :: values[c] == At(row, c))
  {
    BatchAt(db, q, i);
  }

  /** An account-group row likewise; it has no ID column. */
  lemma AccountGroupValues(db: Db, q: AccountGroupQuery, i: nat)
    requires i < |BatchAccountGroups(db, q)|
    ensures var row, values := Window(q.base, Scan(db.accountGroups, q.base.preds))[i], BatchAccountGroups(db, q)[i].values;
            && (forall c :: c in values <==> GroupReadsColumn(q, c))
            && (forall c | c in values :: values[c] == At(row, c))
  {
    BatchGroupAt(db, q, i);
  }

  /** The columns of an entity without edges: all of the table, or the ID and what is selected. */
  predicate LeafReadsColumn(base: Base, table: seq<Column>, c: Column) {
    if base.fields == [] then c in table else c == ID || c in base.fields
  }

  /** And so do proxies, groups and usage logs: the whole table, or the ID and what is selected. */
  lemma LeafValues(db: Db, rows: seq<Row>, base: Base, i: nat)
    requires i < |Select(rows, base)|
    ensures var row := Window(base, Scan(rows, base.preds))[i];
            var proxy, group, log := Leaves(rows, ProxyTable(db), base)[i], Leaves(rows, GroupTable(db), base)[i], Leaves(rows, UsageLogTable(db), base)[i];
            && (forall c :: c in proxy <==> LeafReadsColumn(base, [ID] + db.proxyFields, c))
            && (forall c :: c in group <==> LeafReadsColumn(base, [ID] + db.groupFields, c))
            && (forall c :: c in log <==> LeafReadsColumn(base, [ID, AccountID] + db.usageLogFields, c))
            && (forall c | c in proxy :: proxy[c] == At(row, c)) && (forall c | c in group :: group[c] == At(row, c))
            && (forall c | c in log :: log[c] == At(row, c))
  {
  }

  // ------------------------------------------------------------------------ the queries

  function Only(q: Option<LeafQuery>): seq<Base> {
    if q.Some? then [q.value] else []
  }

  /** Every node of the tree of `With*` sub-queries, the root first. */
  function Subqueries(q: AccountQuery): seq<Base>
    decreases q
  {
    [q.base] + Only(q.withGroups) + Only(q.withProxy)
    + (match q.withParent case None => [] case Some(p) => Subqueries(p))
    + (match q.withChildren case None => [] case Some(p) => Subqueries(p))
    + Only(q.withUsageLogs)
    + (match q.withAccountGroups case None => [] case Some(p) => GroupSubqueries(p))
  }

  function GroupSubqueries(q: AccountGroupQuery): seq<Base>
    decreases q
  {
    [q.base] + (match q.withAccount case None => [] case Some(p) => Subqueries(p)) + Only(q.withGroup)
  }

  /** The bound on the number of queries is the number of nodes in the query tree. */
  lemma {:induction false} SizeMeaning(q: AccountQuery)
    ensures Size(q) == |Subqueries(q)|
    decreases q
  {
    match q.withParent { case None => case Some(p) => SizeMeaning(p); }
    match q.withChildren { case None => case Some(p) => SizeMeaning(p); }
    match q.withAccountGroups { case None => case Some(p) => GroupSizeMeaning(p); }
  }

  lemma {:induction false} GroupSizeMeaning(q: AccountGroupQuery)
    ensures GroupSize(q) == |GroupSubqueries(q)|
    decreases q
  {
    match q.withAccount { case None => case Some(p) => SizeMeaning(p); }
  }
}
