/** One-to-many loading deals out what it finds: every row goes to exactly one account. */
module EagerPartitions {
  import opened Basics
  import opened EntSchema
  import opened EagerSpec
  import opened EagerTheorems
  import opened EagerLimits

  /** All shares, put together. */
  function Together<T>(shares: seq<seq<T>>): multiset<T> {
    if shares == [] then multiset{} else Together(shares[..|shares| - 1]) + multiset(shares[|shares| - 1])
  }

  /** What each of the owners `ids` gets. */
  function Shares<T>(items: seq<T>, keys: seq<Option<int>>, ids: seq<int>): seq<seq<T>>
    requires |items| == |keys|
  {
    seq(|ids|, i requires 0 <= i < |ids| => Owned(items, keys, ids[i]))
  }

  lemma LastShare<T>(items: seq<T>, keys: seq<Option<int>>, ids: seq<int>)
    requires |items| == |keys| && ids != []
    ensures Together(Shares(items, keys, ids))
         == Together(Shares(items, keys, ids[..|ids| - 1])) + multiset(Owned(items, keys, ids[|ids| - 1]))
  {
    assert Shares(items, keys, ids)[..|ids| - 1] == Shares(items, keys, ids[..|ids| - 1]);
  }

  function OneKept<T>(item: T, kept: bool): multiset<T> {
    if kept then multiset{item} else multiset{}
  }

  lemma LastItem<T>(items: seq<T>, keys: seq<Option<int>>, id: int)
    requires |items| == |keys| > 0
    ensures var n := |items| - 1;
            multiset(Owned(items, keys, id)) == multiset(Owned(items[..n], keys[..n], id)) + OneKept(items[n], keys[n] == Some(id))
  {
    var n := |items| - 1;
    OwnedPrefix(items, keys, items[..n], keys[..n], n, id);
  }

  predicate IsIn(key: Option<int>, ids: seq<int>) {
    key.Some? && key.value in ids
  }

  lemma KeptInFrontOrLast<T>(item: T, key: Option<int>, ids: seq<int>)
    requires ids != [] && NoDuplicates(ids)
    ensures OneKept(item, IsIn(key, ids)) == OneKept(item, IsIn(key, ids[..|ids| - 1])) + OneKept(item, key == Some(ids[|ids| - 1]))
  {
    var front, id := ids[..|ids| - 1], ids[|ids| - 1];
    assert ids == front + [id];
    assert id !in front;
  }

  lemma Regrouped<T>(front: multiset<T>, last: multiset<T>, inFront: multiset<T>, inLast: multiset<T>)
    ensures (front + inFront) + (last + inLast) == (front + last) + (inFront + inLast)
  {
  }

  lemma {:induction false} OneMoreItem<T>(items: seq<T>, keys: seq<Option<int>>, ids: seq<int>)
    requires |items| == |keys| > 0 && NoDuplicates(ids)
    ensures var n := |items| - 1;
            Together(Shares(items, keys, ids))
            == Together(Shares(items[..n], keys[..n], ids)) + OneKept(items[n], IsIn(keys[n], ids))
  {
    var n := |items| - 1;
    var item, key, rest, ks := items[n], keys[n], items[..n], keys[..n];
    if ids != [] {
      var front, id := ids[..|ids| - 1], ids[|ids| - 1];
      OneMoreItem(items, keys, front);
      LastShare(items, keys, ids);
      LastShare(rest, ks, ids);
      LastItem(items, keys, id);
      KeptInFrontOrLast(item, key, ids);
      Regrouped(Together(Shares(rest, ks, front)), multiset(Owned(rest, ks, id)), OneKept(item, IsIn(key, front)), OneKept(item, key == Some(id)));
    } else {
      assert Shares(items, keys, ids) == Shares(rest, ks, ids) && OneKept(item, IsIn(key, ids)) == multiset{};
    }
  }

  lemma {:induction false} NothingShared<T>(items: seq<T>, keys: seq<Option<int>>, ids: seq<int>)
    requires |items| == |keys| == 0
    ensures Together(Shares(items, keys, ids)) == multiset{}
  {
    if ids != [] {
      NothingShared(items, keys, ids[..|ids| - 1]);
      LastShare(items, keys, ids);
    }
  }

  /** With distinct owners that cover every key, each item ends up with exactly one owner. */
  lemma {:induction false} OwnersPartition<T>(items: seq<T>, keys: seq<Option<int>>, ids: seq<int>)
    requires |items| == |keys| && NoDuplicates(ids)
    requires forall j | 0 <= j < |keys| :: keys[j].Some? && keys[j].value in ids
    ensures Together(Shares(items, keys, ids)) == multiset(items)
  {
    if items == [] {
      NothingShared(items, keys, ids);
    } else {
      var n := |items| - 1;
      OwnersPartition(items[..n], keys[..n], ids);
      OneMoreItem(items, keys, ids);
      assert items == items[..n] + [items[n]];
    }
  }

  /** The IDs of the scanned accounts. */
  function Ids(nodes: seq<Row>): seq<int> {
    seq(|nodes|, i requires 0 <= i < |nodes| => Key(nodes[i], ID))
  }

  lemma DistinctNodes(db: Db, q: AccountQuery)
    requires ValidDb(db)
    ensures var nodes := AccountNodes(db, q);
            NoDuplicates(Ids(nodes)) && forall i | 0 <= i < |nodes| :: HoldsId(nodes, i)
  {
    var nodes := AccountNodes(db, q);
    forall i | 0 <= i < |nodes| ensures HoldsId(nodes, i) {
      NodeKeys(db, q, i);
    }
    forall i, j | 0 <= i < j < |nodes| ensures Ids(nodes)[i] != Ids(nodes)[j] {
      assert HoldsId(nodes, i);
    }
  }

  /** Whatever a one-to-many query finds belongs to one of the accounts it was made for. */
  lemma FoundBelongs(rows: seq<Row>, base: Base, columns: seq<Column>, c: Column, nodes: seq<Row>)
    requires c in columns
    ensures var ks := Keys(Found(rows, base, columns, c, PlainKeySet(nodes, ID)), c);
            forall j | 0 <= j < |ks| :: ks[j].Some? && ks[j].value in Ids(nodes)
  {
    var keys := PlainKeySet(nodes, ID);
    FoundIsWindow(rows, base, columns, c, keys);
    FoundKeys(rows, base, columns, c, keys);
    WindowIsSlice(base, Keys(FoundAll(rows, base, columns, c, keys), c));
    forall k | k in keys ensures k in Ids(nodes) {
      var r :| r in nodes && Key(r, ID) == k;
      var i :| 0 <= i < |nodes| && nodes[i] == r;
      assert Ids(nodes)[i] == k;
    }
  }

  function UsageLogsShares(db: Db, q: AccountQuery, nodes: seq<Row>): seq<seq<Row>> {
    seq(|nodes|, i requires 0 <= i < |nodes| => UsageLogsOf(db, q, nodes, i))
  }

  lemma UsageLogsDealt(db: Db, q: AccountQuery, nodes: seq<Row>)
    requires NoDuplicates(Ids(nodes)) && (forall i | 0 <= i < |nodes| :: HoldsId(nodes, i)) && q.withUsageLogs.Some?
    ensures Together(UsageLogsShares(db, q, nodes))
            == multiset(FoundUsageLogs(db, q, nodes))
  {
    var base := UsageLogBase(q);
    var found := FoundUsageLogs(db, q, nodes);
    ForcedColumn(q.withUsageLogs.value, AccountID);
    FoundBelongs(db.usageLogs, base, ColumnsWithId(UsageLogTable(db), base), AccountID, nodes);
    OwnersPartition(found, Keys(found, AccountID), Ids(nodes));
    assert UsageLogsShares(db, q, nodes) == Shares(found, Keys(found, AccountID), Ids(nodes));
  }

  /** Usage logs: with an offset and a limit or without, every row found goes to exactly one account. */
  lemma UsageLogsPartition(db: Db, q: AccountQuery)
    requires ValidDb(db) && q.withUsageLogs.Some?
    ensures var nodes := AccountNodes(db, q);
            Together(UsageLogsShares(db, q, nodes))
            == multiset(FoundUsageLogs(db, q, nodes))
  {
    DistinctNodes(db, q);
    UsageLogsDealt(db, q, AccountNodes(db, q));
  }

  function ChildrenShares(db: Db, q: AccountQuery, nodes: seq<Row>): seq<seq<AccountTree>> {
    seq(|nodes|, i requires 0 <= i < |nodes| => ChildrenOf(db, q, nodes, i))
  }

  lemma ChildrenDealt(db: Db, q: AccountQuery, nodes: seq<Row>)
    requires NoDuplicates(Ids(nodes)) && (forall i | 0 <= i < |nodes| :: HoldsId(nodes, i)) && q.withChildren.Some?
    ensures Together(ChildrenShares(db, q, nodes))
            == multiset(BatchAccounts(db, ChildrenQuery(q, PlainKeySet(nodes, ID))))
  {
    var p := ChildrenQuery(q, PlainKeySet(nodes, ID));
    var found := BatchAccounts(db, p);
    var keys := AccountKeys(found, ParentAccountID);
    ForcedColumn(q.withChildren.value.base, ParentAccountID);
    BatchKeys(db, p, ParentAccountID);
    ProjectedKeys(Select(db.accounts, p.base), AccountColumns(db, p), ParentAccountID);
    FoundBelongs(db.accounts, ChildrenBase(q), ChildrenColumns(db, q), ParentAccountID, nodes);
    OwnersPartition(found, keys, Ids(nodes));
    assert ChildrenShares(db, q, nodes) == Shares(found, keys, Ids(nodes));
  }

  /** Children likewise. */
  lemma ChildrenPartition(db: Db, q: AccountQuery)
    requires ValidDb(db) && q.withChildren.Some?
    ensures var nodes := AccountNodes(db, q);
            Together(ChildrenShares(db, q, nodes))
            == multiset(BatchAccounts(db, ChildrenQuery(q, PlainKeySet(nodes, ID))))
  {
    DistinctNodes(db, q);
    ChildrenDealt(db, q, AccountNodes(db, q));
  }

  function AccountGroupsShares(db: Db, q: AccountQuery, nodes: seq<Row>): seq<seq<AccountGroupTree>> {
    seq(|nodes|, i requires 0 <= i < |nodes| => AccountGroupsOf(db, q, nodes, i))
  }

  lemma AccountGroupsDealt(db: Db, q: AccountQuery, nodes: seq<Row>)
    requires NoDuplicates(Ids(nodes)) && (forall i | 0 <= i < |nodes| :: HoldsId(nodes, i)) && q.withAccountGroups.Some?
    ensures Together(AccountGroupsShares(db, q, nodes))
            == multiset(BatchAccountGroups(db, AccountGroupsQuery(q, PlainKeySet(nodes, ID))))
  {
    var p := AccountGroupsQuery(q, PlainKeySet(nodes, ID));
    var found := BatchAccountGroups(db, p);
    var keys := AccountGroupKeys(found, AccountID);
    ForcedColumn(q.withAccountGroups.value.base, AccountID);
    BatchGroupKeys(db, p, AccountID);
    ProjectedKeys(Select(db.accountGroups, p.base), AccountGroupColumns(p), AccountID);
    FoundBelongs(db.accountGroups, AccountGroupsBase(q), AccountGroupsColumns(q), AccountID, nodes);
    OwnersPartition(found, keys, Ids(nodes));
    assert AccountGroupsShares(db, q, nodes) == Shares(found, keys, Ids(nodes));
  }

  /** Account groups likewise. */
  lemma AccountGroupsPartition(db: Db, q: AccountQuery)
    requires ValidDb(db) && q.withAccountGroups.Some?
    ensures var nodes := AccountNodes(db, q);
            Together(AccountGroupsShares(db, q, nodes))
            == multiset(BatchAccountGroups(db, AccountGroupsQuery(q, PlainKeySet(nodes, ID))))
  {
    DistinctNodes(db, q);
    AccountGroupsDealt(db, q, AccountNodes(db, q));
  }
}
