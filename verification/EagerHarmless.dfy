/** Offsets and limits anywhere below the root, as long as each is harmless on the batch that it cuts. */
module EagerHarmless {
  import opened Basics
  import opened EntSchema
  import opened EagerSpec
  import opened EagerTheorems
  import opened EagerLimits

  /** The window of a nested query for these keys is harmless on what it finds. */
  ghost predicate HarmlessOn(rows: seq<Row>, base: Base, c: Column, keys: set<int>) {
    Harmless(Keys(Scan(rows, base.preds + [In(c, keys)]), c), base)
  }

  predicate AllKnown(keys: seq<Option<int>>) {
    forall j | 0 <= j < |keys| :: keys[j].Some?
  }

  lemma ScannedKeys(rows: seq<Row>, preds: seq<Predicate>, c: Column, keys: set<int>)
    ensures AllKnown(Keys(Scan(rows, preds + [In(c, keys)]), c))
  {
    var all := Scan(rows, preds + [In(c, keys)]);
    ScanFacts(rows, preds + [In(c, keys)]);
    forall j | 0 <= j < |all| ensures Keys(all, c)[j].Some? {
      assert all[j] in all;
      HoldsNarrowed(preds, c, keys, all[j]);
    }
  }

  lemma HarmlessPerOwner(rows: seq<Row>, base: Base, c: Column, keys: set<int>)
    requires HarmlessOn(rows, base, c, keys)
    ensures PerOwner(rows, base, c, keys)
  {
    ScannedKeys(rows, base.preds, c, keys);
    PerOwnerIfHarmless(rows, base, c, keys, Scan(rows, base.preds + [In(c, keys)]));
  }

  lemma PerOwnerIfHarmless(rows: seq<Row>, base: Base, c: Column, keys: set<int>, scanned: seq<Row>)
    requires scanned == Scan(rows, base.preds + [In(c, keys)]) && AllKnown(Keys(scanned, c)) && Harmless(Keys(scanned, c), base)
    ensures PerOwner(rows, base, c, keys)
  {
    var ks, all := Keys(scanned, c), Select(rows, Narrow(base, c, keys));
    WindowIsSlice(base, scanned);
    WindowIsSlice(base, ks);
    WindowPerOwnerIff(scanned, ks, base);
    assert Keys(all, c) == Window(base, ks);
    forall k | k in keys ensures Owned(all, Keys(all, c), k) == Select(rows, Narrow(base, c, {k})) {
      ScanOwnedUpTo(rows, base.preds, c, keys, k);
    }
  }

  /** Every nested query below the root has a harmless window on the batch that it is run on; groups have none. */
  ghost predicate HarmlessBelow(db: Db, q: AccountQuery)
    decreases Size(q)
  {
    var nodes := AccountNodes(db, q);
    var ids := PlainKeySet(nodes, ID);
    && UnlimitedLeaf(q.withGroups)
    && (q.withProxy.Some? ==> HarmlessOn(db.proxies, q.withProxy.value, ID, KeySet(nodes, ProxyID)))
    && (q.withUsageLogs.Some? ==> HarmlessOn(db.usageLogs, ForceColumn(q.withUsageLogs.value, AccountID), AccountID, ids))
    && (q.withParent.Some? ==>
          var keys := KeySet(nodes, ParentAccountID);
          HarmlessOn(db.accounts, q.withParent.value.base, ID, keys) && HarmlessBelow(db, ParentsQuery(q, keys)))
    && (q.withChildren.Some? ==>
          && HarmlessOn(db.accounts, ForceColumn(q.withChildren.value.base, ParentAccountID), ParentAccountID, ids)
          && HarmlessBelow(db, ChildrenQuery(q, ids)))
    && (q.withAccountGroups.Some? ==>
          && HarmlessOn(db.accountGroups, ForceColumn(q.withAccountGroups.value.base, AccountID), AccountID, ids)
          && HarmlessBelowGroup(db, AccountGroupsQuery(q, ids)))
  }

  ghost predicate HarmlessBelowGroup(db: Db, q: AccountGroupQuery)
    decreases GroupSize(q)
  {
    var nodes := AccountGroupNodes(db, q);
    && (q.withAccount.Some? ==>
          var keys := PlainKeySet(nodes, AccountID);
          HarmlessOn(db.accounts, q.withAccount.value.base, ID, keys) && HarmlessBelow(db, AccountsQuery(q, keys)))
    && (q.withGroup.Some? ==> HarmlessOn(db.groups, q.withGroup.value, ID, PlainKeySet(nodes, GroupID)))
  }

  lemma {:induction false} HarmlessSeparable(db: Db, q: AccountQuery)
    requires HarmlessBelow(db, q)
    ensures Separable(db, q)
    decreases Size(q)
  {
    var nodes := AccountNodes(db, q);
    var ids := PlainKeySet(nodes, ID);
    if q.withProxy.Some? { HarmlessPerOwner(db.proxies, q.withProxy.value, ID, KeySet(nodes, ProxyID)); }
    if q.withUsageLogs.Some? {
      HarmlessPerOwner(db.usageLogs, ForceColumn(q.withUsageLogs.value, AccountID), AccountID, ids);
    }
    if q.withParent.Some? {
      HarmlessPerOwner(db.accounts, q.withParent.value.base, ID, KeySet(nodes, ParentAccountID));
      HarmlessSeparable(db, ParentsQuery(q, KeySet(nodes, ParentAccountID)));
    }
    if q.withChildren.Some? {
      HarmlessPerOwner(db.accounts, ForceColumn(q.withChildren.value.base, ParentAccountID), ParentAccountID, ids);
      HarmlessSeparable(db, ChildrenQuery(q, ids));
    }
    if q.withAccountGroups.Some? {
      HarmlessPerOwner(db.accountGroups, ForceColumn(q.withAccountGroups.value.base, AccountID), AccountID, ids);
      HarmlessSeparableGroup(db, AccountGroupsQuery(q, ids));
    }
  }

  lemma {:induction false} HarmlessSeparableGroup(db: Db, q: AccountGroupQuery)
    requires HarmlessBelowGroup(db, q)
    ensures SeparableGroup(db, q)
    decreases GroupSize(q)
  {
    var nodes := AccountGroupNodes(db, q);
    if q.withAccount.Some? {
      HarmlessPerOwner(db.accounts, q.withAccount.value.base, ID, PlainKeySet(nodes, AccountID));
      HarmlessSeparable(db, AccountsQuery(q, PlainKeySet(nodes, AccountID)));
    }
    if q.withGroup.Some? { HarmlessPerOwner(db.groups, q.withGroup.value, ID, PlainKeySet(nodes, GroupID)); }
  }

  /** Batched loading is per-entity lookup at every depth, with offsets and limits that are harmless where they cut. */
  lemma HarmlessIsPerEntity(db: Db, q: AccountQuery)
    requires ValidDb(db) && HarmlessBelow(db, q)
    ensures SameAccounts(BatchAccounts(db, q), NaiveAccounts(db, q))
  {
    HarmlessSeparable(db, q);
    SeparableIsPerEntity(db, q);
  }
}
