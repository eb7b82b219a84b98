/** Selecting other fields anywhere in a query changes which columns nodes carry, and nothing else. */
module EagerProjections {
  import opened Basics
  import opened EntSchema
  import opened EagerSpec
  import opened EagerTheorems

  // ---------------------------------------------------------- queries up to fields

  ghost predicate SameCut(a: Base, b: Base) {
    a.preds == b.preds && a.offset == b.offset && a.limit == b.limit
  }

  ghost predicate SameLeaf(a: Option<LeafQuery>, b: Option<LeafQuery>) {
    a.Some? == b.Some? && (a.Some? ==> SameCut(a.value, b.value))
  }

  /** The same query, except for the fields that are selected at any level. */
  ghost predicate SameButFields(p: AccountQuery, q: AccountQuery)
    decreases p
  {
    && SameCut(p.base, q.base)
    && SameLeaf(p.withGroups, q.withGroups) && SameLeaf(p.withProxy, q.withProxy) && SameLeaf(p.withUsageLogs, q.withUsageLogs)
    && (match (p.withParent, q.withParent)
        case (None, None) => true
        case (Some(a), Some(b)) => SameButFields(a, b)
        case (_, _) => false)
    && (match (p.withChildren, q.withChildren)
        case (None, None) => true
        case (Some(a), Some(b)) => SameButFields(a, b)
        case (_, _) => false)
    && (match (p.withAccountGroups, q.withAccountGroups)
        case (None, None) => true
        case (Some(a), Some(b)) => SameGroupButFields(a, b)
        case (_, _) => false)
  }

  ghost predicate SameGroupButFields(p: AccountGroupQuery, q: AccountGroupQuery)
    decreases p
  {
    && SameCut(p.base, q.base) && SameLeaf(p.withGroup, q.withGroup)
    && (match (p.withAccount, q.withAccount)
        case (None, None) => true
        case (Some(a), Some(b)) => SameButFields(a, b)
        case (_, _) => false)
  }

  // ------------------------------------------------------------ trees up to columns

  /** The same values wherever both carry the column. */
  predicate Agree(a: Row, b: Row) {
    forall c | c in a && c in b :: a[c] == b[c]
  }

  /** The same entity, with the columns that were selected. */
  predicate Twins(a: Row, b: Row) {
    ID in a && ID in b && Agree(a, b)
  }

  predicate AllTwins(a: seq<Row>, b: seq<Row>) {
    |a| == |b| && forall i | 0 <= i < |a| :: Twins(a[i], b[i])
  }

  predicate TwinOption(a: Option<Row>, b: Option<Row>) {
    a.Some? == b.Some? && (a.Some? ==> Twins(a.value, b.value))
  }

  /** The same accounts with the same edges, at every depth and in the same order. */
  ghost predicate Alike(s: AccountTree, t: AccountTree)
    decreases s
  {
    && Twins(s.values, t.values) && s.loaded == t.loaded
    && AllTwins(s.groups, t.groups) && TwinOption(s.proxy, t.proxy) && AllTwins(s.usageLogs, t.usageLogs)
    && AlikeOption(s.parent, t.parent)
    && AllAlike(s.children, t.children)
    && |s.accountGroups| == |t.accountGroups|
    && (forall i | 0 <= i < |s.accountGroups| :: AlikeGroup(s.accountGroups[i], t.accountGroups[i]))
  }

  ghost predicate AlikeOption(s: Option<AccountTree>, t: Option<AccountTree>)
    decreases s
  {
    match (s, t)
    case (None, None) => true
    case (Some(a), Some(b)) => Alike(a, b)
    case (_, _) => false
  }

  ghost predicate AllAlike(ss: seq<AccountTree>, ts: seq<AccountTree>)
    decreases ss
  {
    |ss| == |ts| && forall i | 0 <= i < |ss| :: Alike(ss[i], ts[i])
  }

  ghost predicate AlikeGroup(s: AccountGroupTree, t: AccountGroupTree)
    decreases s
  {
    Agree(s.values, t.values) && s.loaded == t.loaded && TwinOption(s.group, t.group) && AlikeOption(s.account, t.account)
  }

  ghost predicate AllAlikeGroups(ss: seq<AccountGroupTree>, ts: seq<AccountGroupTree>) {
    |ss| == |ts| && forall i | 0 <= i < |ss| :: AlikeGroup(ss[i], ts[i])
  }

  // ----------------------------------------------------------------- picking by key

  lemma ProjectionsAreTwins(rows: seq<Row>, cs: seq<Column>, ds: seq<Column>)
    requires ID in cs && ID in ds
    ensures AllTwins(ProjectAll(rows, cs), ProjectAll(rows, ds))
  {
  }

  lemma {:induction false} LatestTwins(a: seq<Row>, b: seq<Row>, keys: seq<Option<int>>, n: nat, fk: Option<int>)
    requires AllTwins(a, b) && n <= |a| == |keys|
    ensures TwinOption(LatestUpTo(a, keys, n, fk, None), LatestUpTo(b, keys, n, fk, None))
  {
    if n > 0 {
      LatestTwins(a, b, keys, n - 1, fk);
    }
  }

  lemma {:induction false} LatestAlike(a: seq<AccountTree>, b: seq<AccountTree>, keys: seq<Option<int>>, n: nat, fk: Option<int>)
    requires AllAlike(a, b) && n <= |a| == |keys|
    ensures AlikeOption(LatestUpTo(a, keys, n, fk, None), LatestUpTo(b, keys, n, fk, None))
  {
    if n > 0 {
      LatestAlike(a, b, keys, n - 1, fk);
    }
  }

  lemma OwnedTwins(a: seq<Row>, b: seq<Row>, keys: seq<Option<int>>, k: int)
    requires AllTwins(a, b) && |a| == |keys|
    ensures AllTwins(Owned(a, keys, k), Owned(b, keys, k))
  {
    OwnedPositions(a, b, keys, |a|, k);
  }

  lemma OwnedAlike(a: seq<AccountTree>, b: seq<AccountTree>, keys: seq<Option<int>>, k: int)
    requires AllAlike(a, b) && |a| == |keys|
    ensures AllAlike(Owned(a, keys, k), Owned(b, keys, k))
  {
    OwnedPositions(a, b, keys, |a|, k);
  }

  lemma OwnedAlikeGroups(a: seq<AccountGroupTree>, b: seq<AccountGroupTree>, keys: seq<Option<int>>, k: int)
    requires AllAlikeGroups(a, b) && |a| == |keys|
    ensures AllAlikeGroups(Owned(a, keys, k), Owned(b, keys, k))
  {
    OwnedPositions(a, b, keys, |a|, k);
  }

  lemma {:induction false} LinkedTwins(js: seq<(Row, Row)>, a: seq<Row>, b: seq<Row>, n: nat, k: int)
    requires AllTwins(a, b) && n <= |a|
    ensures AllTwins(LinkedGroups(js, a, n, k), LinkedGroups(js, b, n, k))
  {
    if n > 0 {
      LinkedTwins(js, a, b, n - 1, k);
    }
  }

  // ------------------------------------------------------------------ the same keys

  lemma SameSelect(rows: seq<Row>, a: Base, b: Base)
    requires SameCut(a, b)
    ensures Select(rows, a) == Select(rows, b)
  {
  }

  /** Both scans agree on the keys that a column carries in both. */
  lemma SameKeysOf(rows: seq<Row>, cs: seq<Column>, ds: seq<Column>, c: Column)
    requires c in cs && c in ds
    ensures var a, b := ProjectAll(rows, cs), ProjectAll(rows, ds);
            && Keys(a, c) == Keys(b, c) == Keys(rows, c)
            && KeySet(a, c) == KeySet(b, c) && PlainKeySet(a, c) == PlainKeySet(b, c)
            && forall i | 0 <= i < |rows| :: Key(a[i], c) == Key(b[i], c) && IntAt(a[i], c) == IntAt(b[i], c)
  {
    ProjectedKeys(rows, cs, c);
    ProjectedKeys(rows, ds, c);
    assert forall i | 0 <= i < |rows| :: At(Project(rows[i], cs), c) == At(rows[i], c) == At(Project(rows[i], ds), c);
  }

  lemma LeavesTwins(rows: seq<Row>, table: seq<Column>, a: Base, b: Base)
    requires SameCut(a, b) && ID in table
    ensures AllTwins(Leaves(rows, table, a), Leaves(rows, table, b))
    ensures Keys(Leaves(rows, table, a), ID) == Keys(Leaves(rows, table, b), ID)
  {
    SameSelect(rows, a, b);
    ProjectionsAreTwins(Select(rows, a), ColumnsWithId(table, a), ColumnsWithId(table, b));
    SameKeysOf(Select(rows, a), ColumnsWithId(table, a), ColumnsWithId(table, b), ID);
  }

  lemma NarrowedCut(a: Base, b: Base, c: Column, keys: set<int>)
    requires SameCut(a, b)
    ensures SameCut(Narrow(a, c, keys), Narrow(b, c, keys)) && SameCut(ForceColumn(a, c), ForceColumn(b, c))
  {
  }

  // --------------------------------------------------------------------- the edges

  /** What the two scans of the accounts have in common. */
  ghost predicate SameNodes(p: AccountQuery, a: seq<Row>, b: seq<Row>) {
    && AllTwins(a, b)
    && PlainKeySet(a, ID) == PlainKeySet(b, ID)
    && (forall i | 0 <= i < |a| :: Key(a[i], ID) == Key(b[i], ID))
    && (p.withProxy.Some? ==> KeySet(a, ProxyID) == KeySet(b, ProxyID) && forall i | 0 <= i < |a| :: IntAt(a[i], ProxyID) == IntAt(b[i], ProxyID))
    && (p.withParent.Some? ==>
          KeySet(a, ParentAccountID) == KeySet(b, ParentAccountID) && forall i | 0 <= i < |a| :: IntAt(a[i], ParentAccountID) == IntAt(b[i], ParentAccountID))
  }

  lemma NodesCorrespond(db: Db, p: AccountQuery, q: AccountQuery)
    requires SameButFields(p, q)
    ensures SameNodes(p, AccountNodes(db, p), AccountNodes(db, q))
  {
    var rows := Select(db.accounts, p.base);
    var cs, ds := AccountColumns(db, p), AccountColumns(db, q);
    SameSelect(db.accounts, p.base, q.base);
    ProjectionsAreTwins(rows, cs, ds);
    SameKeysOf(rows, cs, ds, ID);
    if p.withProxy.Some? { SameKeysOf(rows, cs, ds, ProxyID); }
    if p.withParent.Some? { SameKeysOf(rows, cs, ds, ParentAccountID); }
  }

  lemma GroupsTwins(db: Db, p: AccountQuery, q: AccountQuery, a: seq<Row>, b: seq<Row>, i: nat)
    requires SameButFields(p, q) && SameNodes(p, a, b) && i < |a|
    ensures AllTwins(GroupsOf(db, p, a, i), GroupsOf(db, q, b, i))
  {
    assert HoldsId(a, i) <==> HoldsId(b, i);
    if p.withGroups.Some? && HoldsId(a, i) {
      var js := JoinRows(db, p.withGroups.value, a);
      assert js == JoinRows(db, q.withGroups.value, b);
      var firsts := FirstAppearances(js, |js|);
      var cs, ds := ColumnsWithId(GroupTable(db), p.withGroups.value), ColumnsWithId(GroupTable(db), q.withGroups.value);
      ProjectionsAreTwins(firsts, cs, ds);
      LinkedTwins(js, ProjectAll(firsts, cs), ProjectAll(firsts, ds), |firsts|, Key(a[i], ID));
    }
  }

  lemma ProxyTwins(db: Db, p: AccountQuery, q: AccountQuery, a: seq<Row>, b: seq<Row>, i: nat)
    requires SameButFields(p, q) && SameNodes(p, a, b) && i < |a|
    ensures TwinOption(ProxyOf(db, p, a, i), ProxyOf(db, q, b, i))
  {
    if p.withProxy.Some? {
      var keys := KeySet(a, ProxyID);
      NarrowedCut(p.withProxy.value, q.withProxy.value, ID, keys);
      LeavesTwins(db.proxies, ProxyTable(db), Narrow(p.withProxy.value, ID, keys), Narrow(q.withProxy.value, ID, keys));
      var f, g := FoundProxies(db, p, a), FoundProxies(db, q, b);
      LatestTwins(f, g, Keys(f, ID), |f|, IntAt(a[i], ProxyID));
    }
  }

  lemma ForcedLeavesTwins(rows: seq<Row>, table: seq<Column>, a: Base, b: Base, c: Column, keys: set<int>)
    requires SameCut(a, b) && ID in table && c in ColumnsWithId(table, a) && c in ColumnsWithId(table, b)
    ensures var f, g := Leaves(rows, table, Narrow(a, c, keys)), Leaves(rows, table, Narrow(b, c, keys));
            AllTwins(f, g) && Keys(f, c) == Keys(g, c)
  {
    NarrowedCut(a, b, c, keys);
    LeavesTwins(rows, table, Narrow(a, c, keys), Narrow(b, c, keys));
    SameSelect(rows, Narrow(a, c, keys), Narrow(b, c, keys));
    SameKeysOf(Select(rows, Narrow(a, c, keys)), ColumnsWithId(table, a), ColumnsWithId(table, b), c);
  }

  lemma UsageLogsTwins(db: Db, p: AccountQuery, q: AccountQuery, a: seq<Row>, b: seq<Row>, i: nat)
    requires SameButFields(p, q) && SameNodes(p, a, b) && i < |a|
    ensures AllTwins(UsageLogsOf(db, p, a, i), UsageLogsOf(db, q, b, i))
  {
    assert HoldsId(a, i) <==> HoldsId(b, i);
    if p.withUsageLogs.Some? && HoldsId(a, i) {
      ForcedColumn(p.withUsageLogs.value, AccountID);
      ForcedColumn(q.withUsageLogs.value, AccountID);
      NarrowedCut(p.withUsageLogs.value, q.withUsageLogs.value, AccountID, PlainKeySet(a, ID));
      ForcedLeavesTwins(db.usageLogs, UsageLogTable(db), ForceColumn(p.withUsageLogs.value, AccountID),
                        ForceColumn(q.withUsageLogs.value, AccountID), AccountID, PlainKeySet(a, ID));
      var f, g := FoundUsageLogs(db, p, a), FoundUsageLogs(db, q, b);
      OwnedTwins(f, g, Keys(f, AccountID), Key(a[i], ID));
    }
  }

  /** Two batches of the same accounts agree on a key that both carry. */
  lemma SameBatchKeys(db: Db, p: AccountQuery, q: AccountQuery, c: Column)
    requires SameCut(p.base, q.base) && c in AccountColumns(db, p) && c in AccountColumns(db, q)
    ensures AccountKeys(BatchAccounts(db, p), c) == AccountKeys(BatchAccounts(db, q), c)
  {
    SameSelect(db.accounts, p.base, q.base);
    BatchKeys(db, p, c);
    BatchKeys(db, q, c);
  }

  lemma SameParentsQuery(db: Db, p: AccountQuery, q: AccountQuery, keys: set<int>)
    requires SameButFields(p, q) && p.withParent.Some?
    ensures var pp, qp := ParentsQuery(p, keys), ParentsQuery(q, keys);
            SameButFields(pp, qp) && ID in AccountColumns(db, pp) && ID in AccountColumns(db, qp)
  {
  }

  lemma SameChildrenQuery(db: Db, p: AccountQuery, q: AccountQuery, keys: set<int>)
    requires SameButFields(p, q) && p.withChildren.Some?
    ensures var pc, qc := ChildrenQuery(p, keys), ChildrenQuery(q, keys);
            SameButFields(pc, qc) && ParentAccountID in AccountColumns(db, pc) && ParentAccountID in AccountColumns(db, qc)
  {
    ForcedColumn(p.withChildren.value.base, ParentAccountID);
    ForcedColumn(q.withChildren.value.base, ParentAccountID);
  }

  lemma SameAccountsQuery(db: Db, p: AccountGroupQuery, q: AccountGroupQuery, keys: set<int>)
    requires SameGroupButFields(p, q) && p.withAccount.Some?
    ensures var pa, qa := AccountsQuery(p, keys), AccountsQuery(q, keys);
            SameButFields(pa, qa) && ID in AccountColumns(db, pa) && ID in AccountColumns(db, qa)
  {
  }

  lemma {:induction false} ParentsAlike(db: Db, p: AccountQuery, q: AccountQuery, a: seq<Row>, b: seq<Row>, i: nat)
    requires SameButFields(p, q) && SameNodes(p, a, b) && i < |a|
    ensures AlikeOption(ParentOf(db, p, a, i), ParentOf(db, q, b, i))
    decreases Size(p), 0
  {
    if p.withParent.Some? {
      var keys := KeySet(a, ParentAccountID);
      var pp, qp := ParentsQuery(p, keys), ParentsQuery(q, keys);
      SameParentsQuery(db, p, q, keys);
      ProjectionIndependent(db, pp, qp);
      SameBatchKeys(db, pp, qp, ID);
      LatestAlike(BatchAccounts(db, pp), BatchAccounts(db, qp), AccountKeys(BatchAccounts(db, pp), ID),
                  |BatchAccounts(db, pp)|, IntAt(a[i], ParentAccountID));
    }
  }

  lemma {:induction false} ChildrenAlike(db: Db, p: AccountQuery, q: AccountQuery, a: seq<Row>, b: seq<Row>, i: nat)
    requires SameButFields(p, q) && SameNodes(p, a, b) && i < |a|
    ensures AllAlike(ChildrenOf(db, p, a, i), ChildrenOf(db, q, b, i))
    decreases Size(p), 0
  {
    assert HoldsId(a, i) <==> HoldsId(b, i);
    if p.withChildren.Some? && HoldsId(a, i) {
      var keys := PlainKeySet(a, ID);
      var pc, qc := ChildrenQuery(p, keys), ChildrenQuery(q, keys);
      SameChildrenQuery(db, p, q, keys);
      ProjectionIndependent(db, pc, qc);
      SameBatchKeys(db, pc, qc, ParentAccountID);
      OwnedAlike(BatchAccounts(db, pc), BatchAccounts(db, qc), AccountKeys(BatchAccounts(db, pc), ParentAccountID), Key(a[i], ID));
    }
  }

  lemma {:induction false} AccountGroupsAlike(db: Db, p: AccountQuery, q: AccountQuery, a: seq<Row>, b: seq<Row>, i: nat)
    requires SameButFields(p, q) && SameNodes(p, a, b) && i < |a|
    ensures AllAlikeGroups(AccountGroupsOf(db, p, a, i), AccountGroupsOf(db, q, b, i))
    decreases Size(p), 0
  {
    assert HoldsId(a, i) <==> HoldsId(b, i);
    if p.withAccountGroups.Some? && HoldsId(a, i) {
      var keys := PlainKeySet(a, ID);
      var pg, qg := AccountGroupsQuery(p, keys), AccountGroupsQuery(q, keys);
      ForcedColumn(p.withAccountGroups.value.base, AccountID);
      ForcedColumn(q.withAccountGroups.value.base, AccountID);
      GroupProjectionIndependent(db, pg, qg);
      SameSelect(db.accountGroups, pg.base, qg.base);
      BatchGroupKeys(db, pg, AccountID);
      BatchGroupKeys(db, qg, AccountID);
      var f := BatchAccountGroups(db, pg);
      OwnedAlikeGroups(f, BatchAccountGroups(db, qg), AccountGroupKeys(f, AccountID), Key(a[i], ID));
    }
  }

  // -------------------------------------------------------------------- the theorem

  /** Whatever fields are selected at whatever level, the same accounts come with the same edges, in the same order,
      and the columns that both carry have the same values. */
  lemma {:induction false} ProjectionIndependent(db: Db, p: AccountQuery, q: AccountQuery)
    requires SameButFields(p, q)
    ensures AllAlike(BatchAccounts(db, p), BatchAccounts(db, q))
    decreases Size(p), 1
  {
    var a, b := AccountNodes(db, p), AccountNodes(db, q);
    NodesCorrespond(db, p, q);
    forall i | 0 <= i < |a| ensures Alike(BatchAccounts(db, p)[i], BatchAccounts(db, q)[i]) {
      BatchAt(db, p, i);
      BatchAt(db, q, i);
      GroupsTwins(db, p, q, a, b, i);
      ProxyTwins(db, p, q, a, b, i);
      UsageLogsTwins(db, p, q, a, b, i);
      ParentsAlike(db, p, q, a, b, i);
      ChildrenAlike(db, p, q, a, b, i);
      AccountGroupsAlike(db, p, q, a, b, i);
    }
  }

  lemma {:induction false} OwnersAlike(db: Db, p: AccountGroupQuery, q: AccountGroupQuery, i: nat)
    requires SameGroupButFields(p, q) && i < |AccountGroupNodes(db, p)| == |AccountGroupNodes(db, q)|
    ensures AlikeOption(OwnerOf(db, p, AccountGroupNodes(db, p), i), OwnerOf(db, q, AccountGroupNodes(db, q), i))
    decreases GroupSize(p), 0
  {
    if p.withAccount.Some? {
      var a, b := AccountGroupNodes(db, p), AccountGroupNodes(db, q);
      SameSelect(db.accountGroups, p.base, q.base);
      SameKeysOf(Select(db.accountGroups, p.base), AccountGroupColumns(p), AccountGroupColumns(q), AccountID);
      var keys := PlainKeySet(a, AccountID);
      var pa, qa := AccountsQuery(p, keys), AccountsQuery(q, keys);
      SameAccountsQuery(db, p, q, keys);
      ProjectionIndependent(db, pa, qa);
      SameBatchKeys(db, pa, qa, ID);
      var f := BatchAccounts(db, pa);
      LatestAlike(f, BatchAccounts(db, qa), AccountKeys(f, ID), |f|, Some(Key(a[i], AccountID)));
    }
  }

  lemma GroupTwin(db: Db, p: AccountGroupQuery, q: AccountGroupQuery, i: nat)
    requires SameGroupButFields(p, q) && i < |AccountGroupNodes(db, p)| == |AccountGroupNodes(db, q)|
    ensures TwinOption(GroupOf(db, p, AccountGroupNodes(db, p), i), GroupOf(db, q, AccountGroupNodes(db, q), i))
  {
    if p.withGroup.Some? {
      var a, b := AccountGroupNodes(db, p), AccountGroupNodes(db, q);
      SameSelect(db.accountGroups, p.base, q.base);
      SameKeysOf(Select(db.accountGroups, p.base), AccountGroupColumns(p), AccountGroupColumns(q), GroupID);
      var keys := PlainKeySet(a, GroupID);
      NarrowedCut(p.withGroup.value, q.withGroup.value, ID, keys);
      LeavesTwins(db.groups, GroupTable(db), Narrow(p.withGroup.value, ID, keys), Narrow(q.withGroup.value, ID, keys));
      var f, g := FoundGroups(db, p, a), FoundGroups(db, q, b);
      LatestTwins(f, g, Keys(f, ID), |f|, Some(Key(a[i], GroupID)));
    }
  }

  /** The same for account-group rows. */
  lemma {:induction false} GroupProjectionIndependent(db: Db, p: AccountGroupQuery, q: AccountGroupQuery)
    requires SameGroupButFields(p, q)
    ensures AllAlikeGroups(BatchAccountGroups(db, p), BatchAccountGroups(db, q))
    decreases GroupSize(p), 1
  {
    var rows := Select(db.accountGroups, p.base);
    SameSelect(db.accountGroups, p.base, q.base);
    forall i | 0 <= i < |rows| ensures AlikeGroup(BatchAccountGroups(db, p)[i], BatchAccountGroups(db, q)[i]) {
      BatchGroupAt(db, p, i);
      BatchGroupAt(db, q, i);
      OwnersAlike(db, p, q, i);
      GroupTwin(db, p, q, i);
    }
  }
}
