/** Reading loaded edges: what the `*OrErr` accessors return, by the query that was run and by what the tables hold. */
module EagerReads {
  import opened Basics
  import opened EntSchema
  import opened EagerSpec
  import opened EagerTheorems
  import opened EagerProperties

  // ------------------------------------------------------------------- the accessors

  function Unless<T>(loaded: seq<bool>, position: nat, value: T): Result<T, EdgeError> {
    if position < |loaded| && loaded[position] then Ok(value) else Err(NotLoaded)
  }

  function GroupsOrErr(t: AccountTree): Result<seq<Row>, EdgeError> { Unless(t.loaded, 0, t.groups) }

  function ChildrenOrErr(t: AccountTree): Result<seq<AccountTree>, EdgeError> { Unless(t.loaded, 3, t.children) }

  function UsageLogsOrErr(t: AccountTree): Result<seq<Row>, EdgeError> { Unless(t.loaded, 4, t.usageLogs) }

  function AccountGroupsOrErr(t: AccountTree): Result<seq<AccountGroupTree>, EdgeError> { Unless(t.loaded, 5, t.accountGroups) }

  function AccountOrErr(t: AccountGroupTree): Result<AccountTree, EdgeError> {
    if t.account.Some? then Ok(t.account.value) else if |t.loaded| > 0 && t.loaded[0] then Err(NotFound) else Err(NotLoaded)
  }

  function GroupOrErr(t: AccountGroupTree): Result<Row, EdgeError> {
    if t.group.Some? then Ok(t.group.value) else if |t.loaded| > 1 && t.loaded[1] then Err(NotFound) else Err(NotLoaded)
  }

  // ------------------------------------------------------------ what a lookup goes by

  /** The rows of a table that belong to owner `id` by column `c` and satisfy the caller's predicates, in table order. */
  function OwnRows(rows: seq<Row>, preds: seq<Predicate>, c: Column, id: int): seq<Row> {
    if rows == [] then []
    else
      var rest, r := OwnRows(rows[..|rows| - 1], preds, c, id), rows[|rows| - 1];
      if Holds(preds, r) && IntAt(r, c) == Some(id) then rest + [r] else rest
  }

  lemma {:induction false} OwnRowsAreScanned(rows: seq<Row>, preds: seq<Predicate>, c: Column, id: int)
    ensures OwnRows(rows, preds, c, id) == Scan(rows, preds + [In(c, {id})])
  {
    if rows != [] {
      OwnRowsAreScanned(rows[..|rows| - 1], preds, c, id);
      HoldsNarrowed(preds, c, {id}, rows[|rows| - 1]);
    }
  }

  /** The children query as its caller wrote it, with the foreign key added to a selection. */
  function ChildQuery(q: AccountQuery): AccountQuery
    requires q.withChildren.Some?
  {
    var p := q.withChildren.value;
    p.(base := p.base.(fields := if p.base.fields == [] || ParentAccountID in p.base.fields then p.base.fields
                                 else p.base.fields + [ParentAccountID]))
  }

  function LinkQuery(q: AccountQuery): AccountGroupQuery
    requires q.withAccountGroups.Some?
  {
    var p := q.withAccountGroups.value;
    p.(base := p.base.(fields := if p.base.fields == [] || AccountID in p.base.fields then p.base.fields
                                 else p.base.fields + [AccountID]))
  }

  /** Looked up alone, an account has for children the accounts whose parent it is, each looked up alone. */
  lemma ChildrenLookUp(db: Db, q: AccountQuery, id: int)
    requires q.withChildren.Some? && Unlimited(q.withChildren.value.base)
    ensures var rows, alone := OwnRows(db.accounts, q.withChildren.value.base.preds, ParentAccountID, id), NaiveAccounts(db, ChildrenQuery(q, {id}));
            |alone| == |rows| && forall x | 0 <= x < |rows| :: alone[x] == NaiveAccount(db, ChildQuery(q), rows[x])
  {
    var p := q.withChildren.value;
    var base := Narrow(ForceColumn(p.base, ParentAccountID), ParentAccountID, {id});
    var rows, alone := OwnRows(db.accounts, p.base.preds, ParentAccountID, id), NaiveAccounts(db, ChildrenQuery(q, {id}));
    OwnRowsAreScanned(db.accounts, p.base.preds, ParentAccountID, id);
    assert Select(db.accounts, base) == rows;
    forall x | 0 <= x < |rows| ensures alone[x] == NaiveAccount(db, ChildQuery(q), rows[x]) {
      NaiveAt(db, ChildrenQuery(q, {id}), x);
      NaiveIgnoresPredicates(db, ChildQuery(q), base, rows[x]);
      assert ChildQuery(q).(base := base) == ChildrenQuery(q, {id});
    }
  }

  /** And for account-group rows those with its ID. */
  lemma AccountGroupsLookUp(db: Db, q: AccountQuery, id: int)
    requires q.withAccountGroups.Some? && Unlimited(q.withAccountGroups.value.base)
    ensures var rows := OwnRows(db.accountGroups, q.withAccountGroups.value.base.preds, AccountID, id);
            var alone := NaiveAccountGroups(db, AccountGroupsQuery(q, {id}));
            |alone| == |rows| && forall x | 0 <= x < |rows| :: alone[x] == NaiveAccountGroup(db, LinkQuery(q), rows[x])
  {
    var p := q.withAccountGroups.value;
    var base := Narrow(ForceColumn(p.base, AccountID), AccountID, {id});
    var rows, alone := OwnRows(db.accountGroups, p.base.preds, AccountID, id), NaiveAccountGroups(db, AccountGroupsQuery(q, {id}));
    OwnRowsAreScanned(db.accountGroups, p.base.preds, AccountID, id);
    assert Select(db.accountGroups, base) == rows;
    forall x | 0 <= x < |rows| ensures alone[x] == NaiveAccountGroup(db, LinkQuery(q), rows[x]) {
      NaiveGroupIgnoresPredicates(db, LinkQuery(q), base, rows[x]);
      assert LinkQuery(q).(base := base) == AccountGroupsQuery(q, {id});
    }
  }

  /** A row of account_groups joins the account to the group. */
  ghost predicate Joined(db: Db, id: int, g: Row) {
    exists l | l in db.accountGroups ::
      IntAt(l, AccountID) == Some(id) && IntAt(l, GroupID).Some? && IntAt(l, GroupID) == IntAt(g, ID)
  }

  /** Its groups are those that it is joined to and that satisfy the caller's predicates, each once, in table order. */
  lemma GroupsLookUp(db: Db, base: Base, id: int) returns (rows: seq<Row>)
    requires ValidDb(db) && Unlimited(base)
    ensures LookUpGroups(db, base, id) == ProjectAll(rows, ColumnsWithId(GroupTable(db), base))
    ensures DistinctIds(rows) && forall g :: g in rows <==> g in db.groups && Holds(base.preds, g) && Joined(db, id, g)
  {
    rows := Scan(db.groups, base.preds + [LinkPredicate(db, id)]);
    ScanFacts(db.groups, base.preds + [LinkPredicate(db, id)]);
    forall g ensures g in rows <==> g in db.groups && Holds(base.preds, g) && Joined(db, id, g) {
      MyGroups(db, base, id, g);
      assert LinkedTo(db.accountGroups, id, g) <==> Joined(db, id, g);
    }
  }

  // ------------------------------------------------------------------ the list edges

  /** The groups edge: not loaded iff not requested, and otherwise the account's own groups. */
  lemma GroupsOrErrMeaning(db: Db, q: AccountQuery, i: nat)
    requires ValidDb(db) && NestedUnlimited(q) && i < |BatchAccounts(db, q)|
    ensures var id := Key(Select(db.accounts, q.base)[i], ID);
            match GroupsOrErr(BatchAccounts(db, q)[i])
            case Err(NotLoaded) => q.withGroups.None?
            case Err(NotFound) => false
            case Ok(groups) => q.withGroups.Some? && multiset(groups) == multiset(LookUpGroups(db, q.withGroups.value, id))
  {
    BatchAt(db, q, i);
    UnlimitedSeparable(db, q);
    LeafEdgesAgree(db, q, i);
  }

  /** The children edge: the accounts whose parent is the account, as they are found on their own. */
  lemma ChildrenOrErrMeaning(db: Db, q: AccountQuery, i: nat)
    requires ValidDb(db) && NestedUnlimited(q) && i < |BatchAccounts(db, q)|
    ensures var id := Key(Select(db.accounts, q.base)[i], ID);
            match ChildrenOrErr(BatchAccounts(db, q)[i])
            case Err(NotLoaded) => q.withChildren.None?
            case Err(NotFound) => false
            case Ok(children) =>
              && q.withChildren.Some?
              && var rows := OwnRows(db.accounts, q.withChildren.value.base.preds, ParentAccountID, id);
              && |children| == |rows| && forall x | 0 <= x < |rows| :: Same(children[x], NaiveAccount(db, ChildQuery(q), rows[x]))
  {
    BatchAt(db, q, i);
    UnlimitedSeparable(db, q);
    ChildrenAgree(db, q, i);
    if q.withChildren.Some? {
      ChildrenLookUp(db, q, Key(Select(db.accounts, q.base)[i], ID));
    }
  }

  /** The columns of usage logs: the whole table, or the ID, the selected fields and the owner's ID. */
  function UsageLogColumns(db: Db, base: Base): seq<Column> {
    if base.fields == [] then [ID, AccountID] + db.usageLogFields
    else [ID] + Without(if AccountID in base.fields then base.fields else base.fields + [AccountID], ID)
  }

  lemma UsageLogsLookUp(db: Db, base: Base, id: int)
    requires Unlimited(base)
    ensures Leaves(db.usageLogs, UsageLogTable(db), Narrow(ForceColumn(base, AccountID), AccountID, {id}))
         == ProjectAll(OwnRows(db.usageLogs, base.preds, AccountID, id), UsageLogColumns(db, base))
  {
    OwnRowsAreScanned(db.usageLogs, base.preds, AccountID, id);
  }

  /** The usage-logs edge: the account's own usage logs, in order. */
  lemma UsageLogsOrErrMeaning(db: Db, q: AccountQuery, i: nat)
    requires ValidDb(db) && NestedUnlimited(q) && i < |BatchAccounts(db, q)|
    ensures var id := Key(Select(db.accounts, q.base)[i], ID);
            match UsageLogsOrErr(BatchAccounts(db, q)[i])
            case Err(NotLoaded) => q.withUsageLogs.None?
            case Err(NotFound) => false
            case Ok(logs) =>
              && q.withUsageLogs.Some?
              && logs == ProjectAll(OwnRows(db.usageLogs, q.withUsageLogs.value.preds, AccountID, id), UsageLogColumns(db, q.withUsageLogs.value))
  {
    BatchAt(db, q, i);
    UnlimitedSeparable(db, q);
    LeafEdgesAgree(db, q, i);
    if q.withUsageLogs.Some? {
      UsageLogsLookUp(db, q.withUsageLogs.value, Key(Select(db.accounts, q.base)[i], ID));
    }
  }

  /** The account-groups edge: the account's own rows, each as it is found on its own. */
  lemma AccountGroupsOrErrMeaning(db: Db, q: AccountQuery, i: nat)
    requires ValidDb(db) && NestedUnlimited(q) && i < |BatchAccounts(db, q)|
    ensures var id := Key(Select(db.accounts, q.base)[i], ID);
            match AccountGroupsOrErr(BatchAccounts(db, q)[i])
            case Err(NotLoaded) => q.withAccountGroups.None?
            case Err(NotFound) => false
            case Ok(rows) =>
              && q.withAccountGroups.Some?
              && var own := OwnRows(db.accountGroups, q.withAccountGroups.value.base.preds, AccountID, id);
              && |rows| == |own| && forall x | 0 <= x < |own| :: SameAccountGroup(rows[x], NaiveAccountGroup(db, LinkQuery(q), own[x]))
  {
    BatchAt(db, q, i);
    UnlimitedSeparable(db, q);
    AccountGroupsAgree(db, q, i);
    if q.withAccountGroups.Some? {
      AccountGroupsLookUp(db, q, Key(Select(db.accounts, q.base)[i], ID));
    }
  }

  // ------------------------------------------------------- the edges of account-group rows

  /** Looking one account up by its ID finds the last row with that ID. */
  lemma LookUpOwnerMeaning(db: Db, q: AccountGroupQuery, k: int)
    requires q.withAccount.Some? && Unlimited(q.withAccount.value.base)
    ensures var found := LastOf(NaiveAccounts(db, AccountsQuery(q, {k})));
            var base := q.withAccount.value.base;
            && (found.None? <==> forall r :: !Referenced(db.accounts, base, Some(k), r))
            && (found.Some? ==> exists r | Referenced(db.accounts, base, Some(k), r) ::
                                  found.value == NaiveAccount(db, q.withAccount.value, r))
  {
    var base, one := q.withAccount.value.base, AccountsQuery(q, {k});
    var selected := Select(db.accounts, one.base);
    LastNaive(db, one, NaiveAccounts(db, one), selected);
    forall r ensures r in selected <==> Referenced(db.accounts, base, Some(k), r) {
      SelectOne(db.accounts, base, Some(k), r);
    }
    if selected != [] {
      var r := selected[|selected| - 1];
      assert r in selected;
      NaiveIgnoresPredicates(db, q.withAccount.value, one.base, r);
    }
  }

  /** The account of an account-group row: not loaded iff not requested, not found iff no account has its ID. */
  lemma AccountOrErrMeaning(db: Db, q: AccountGroupQuery, i: nat)
    requires ValidDb(db) && NestedUnlimitedGroup(q) && i < |BatchAccountGroups(db, q)|
    ensures var fk := Some(Key(Select(db.accountGroups, q.base)[i], AccountID));
            match AccountOrErr(BatchAccountGroups(db, q)[i])
            case Err(NotLoaded) => q.withAccount.None?
            case Err(NotFound) => q.withAccount.Some? && forall r :: !Referenced(db.accounts, q.withAccount.value.base, fk, r)
            case Ok(t) =>
              q.withAccount.Some? && exists r | Referenced(db.accounts, q.withAccount.value.base, fk, r) ::
                Same(t, NaiveAccount(db, q.withAccount.value, r))
  {
    BatchGroupAt(db, q, i);
    UnlimitedSeparableGroup(db, q);
    OwnerAgrees(db, q, i);
    if q.withAccount.Some? {
      LookUpOwnerMeaning(db, q, Key(Select(db.accountGroups, q.base)[i], AccountID));
    }
  }

  /** The group of an account-group row likewise. */
  lemma GroupOrErrMeaning(db: Db, q: AccountGroupQuery, i: nat)
    requires ValidDb(db) && NestedUnlimitedGroup(q) && i < |BatchAccountGroups(db, q)|
    ensures var fk := Some(Key(Select(db.accountGroups, q.base)[i], GroupID));
            match GroupOrErr(BatchAccountGroups(db, q)[i])
            case Err(NotLoaded) => q.withGroup.None?
            case Err(NotFound) => q.withGroup.Some? && forall r :: !Referenced(db.groups, q.withGroup.value, fk, r)
            case Ok(v) =>
              q.withGroup.Some? && exists r | Referenced(db.groups, q.withGroup.value, fk, r) ::
                v == Project(r, ColumnsWithId(GroupTable(db), q.withGroup.value))
  {
    BatchGroupAt(db, q, i);
    BatchedGroupsArePerEntity(db, q);
    assert SameAccountGroup(BatchAccountGroups(db, q)[i], NaiveAccountGroups(db, q)[i]);
    var row := Select(db.accountGroups, q.base)[i];
    assert NaiveAccountGroups(db, q)[i] == NaiveAccountGroup(db, q, row);
    if q.withGroup.Some? {
      LookUpLeafMeaning(db.groups, GroupTable(db), q.withGroup.value, Some(Key(row, GroupID)));
    }
  }

  // ---------------------------------------------------------------------- at every depth

  /** An edge reads as not loaded exactly when its sub-query is missing. */
  predicate Flagged(t: AccountTree, q: AccountQuery) {
    && (GroupsOrErr(t) == Err(NotLoaded) <==> q.withGroups.None?)
    && (ProxyOrErr(t) == Err(NotLoaded) <==> q.withProxy.None?)
    && (ParentOrErr(t) == Err(NotLoaded) <==> q.withParent.None?)
    && (ChildrenOrErr(t) == Err(NotLoaded) <==> q.withChildren.None?)
    && (UsageLogsOrErr(t) == Err(NotLoaded) <==> q.withUsageLogs.None?)
    && (AccountGroupsOrErr(t) == Err(NotLoaded) <==> q.withAccountGroups.None?)
  }

  predicate GroupFlagged(t: AccountGroupTree, q: AccountGroupQuery) {
    && (AccountOrErr(t) == Err(NotLoaded) <==> q.withAccount.None?)
    && (GroupOrErr(t) == Err(NotLoaded) <==> q.withGroup.None?)
  }

  /** And so it goes on in what the edges hold. */
  ghost predicate Reads(t: AccountTree, q: AccountQuery)
    decreases t
  {
    && Flagged(t, q)
    && LinkReads(t.parent, q.withParent)
    && AllRead(t.children, q.withChildren)
    && (forall x | 0 <= x < |t.accountGroups| ::
          q.withAccountGroups.Some? && GroupReads(t.accountGroups[x], q.withAccountGroups.value))
  }

  ghost predicate LinkReads(t: Option<AccountTree>, q: Option<AccountQuery>)
    decreases t
  {
    t.Some? ==> q.Some? && Reads(t.value, q.value)
  }

  ghost predicate AllRead(ts: seq<AccountTree>, q: Option<AccountQuery>)
    decreases ts
  {
    forall x | 0 <= x < |ts| :: q.Some? && Reads(ts[x], q.value)
  }

  ghost predicate GroupReads(t: AccountGroupTree, q: AccountGroupQuery)
    decreases t
  {
    GroupFlagged(t, q) && LinkReads(t.account, q.withAccount)
  }

  lemma {:induction false} LatestOccurs<T>(items: seq<T>, keys: seq<Option<int>>, n: nat, k: Option<int>)
    requires n <= |items| == |keys|
    ensures LatestUpTo(items, keys, n, k, None).Some? ==>
              exists j | 0 <= j < |items| :: LatestUpTo(items, keys, n, k, None) == Some(items[j])
  {
    if n > 0 {
      LatestOccurs(items, keys, n - 1, k);
    }
  }

  lemma OwnedOccurs<T>(items: seq<T>, keys: seq<Option<int>>, k: int, x: nat)
    requires |items| == |keys| && x < |Owned(items, keys, k)|
    ensures exists j | 0 <= j < |items| :: Owned(items, keys, k)[x] == items[j]
  {
    OwnedMembers(items, keys, |items|, k);
    assert Owned(items, keys, k)[x] in Owned(items, keys, k);
  }

  /** Reading depends on the sub-queries only. */
  lemma ReadsAnyBase(t: AccountTree, q: AccountQuery, base: Base)
    ensures Reads(t, q.(base := base)) <==> Reads(t, q)
  {
  }

  lemma GroupReadsAnyBase(t: AccountGroupTree, q: AccountGroupQuery, base: Base)
    ensures GroupReads(t, q.(base := base)) <==> GroupReads(t, q)
  {
  }

  lemma {:induction false} ParentReads(db: Db, q: AccountQuery, nodes: seq<Row>, i: nat)
    requires i < |nodes|
    ensures LinkReads(ParentOf(db, q, nodes, i), q.withParent)
    decreases Size(q), 0
  {
    if q.withParent.Some? {
      var p := ParentsQuery(q, KeySet(nodes, ParentAccountID));
      var found := BatchAccounts(db, p);
      LatestOccurs(found, AccountKeys(found, ID), |found|, IntAt(nodes[i], ParentAccountID));
      if ParentOf(db, q, nodes, i).Some? {
        var j :| 0 <= j < |found| && ParentOf(db, q, nodes, i) == Some(found[j]);
        BatchReads(db, p, j);
        ReadsAnyBase(found[j], q.withParent.value, p.base);
      }
    }
  }

  lemma {:induction false} ChildrenRead(db: Db, q: AccountQuery, nodes: seq<Row>, i: nat)
    requires i < |nodes|
    ensures AllRead(ChildrenOf(db, q, nodes, i), q.withChildren)
    decreases Size(q), 0
  {
    if q.withChildren.Some? && HoldsId(nodes, i) {
      var p := ChildrenQuery(q, PlainKeySet(nodes, ID));
      var found := BatchAccounts(db, p);
      var mine := Owned(found, AccountKeys(found, ParentAccountID), Key(nodes[i], ID));
      forall x | 0 <= x < |mine| ensures Reads(mine[x], q.withChildren.value) {
        OwnedOccurs(found, AccountKeys(found, ParentAccountID), Key(nodes[i], ID), x);
        var j :| 0 <= j < |found| && mine[x] == found[j];
        BatchReads(db, p, j);
        ReadsAnyBase(found[j], q.withChildren.value, p.base);
      }
    }
  }

  lemma {:induction false} AccountGroupsRead(db: Db, q: AccountQuery, nodes: seq<Row>, i: nat)
    requires i < |nodes|
    ensures var mine := AccountGroupsOf(db, q, nodes, i);
            forall x | 0 <= x < |mine| :: q.withAccountGroups.Some? && GroupReads(mine[x], q.withAccountGroups.value)
    decreases Size(q), 0
  {
    if q.withAccountGroups.Some? && HoldsId(nodes, i) {
      var p := AccountGroupsQuery(q, PlainKeySet(nodes, ID));
      var found := BatchAccountGroups(db, p);
      var mine := Owned(found, AccountGroupKeys(found, AccountID), Key(nodes[i], ID));
      forall x | 0 <= x < |mine| ensures GroupReads(mine[x], q.withAccountGroups.value) {
        OwnedOccurs(found, AccountGroupKeys(found, AccountID), Key(nodes[i], ID), x);
        var j :| 0 <= j < |found| && mine[x] == found[j];
        BatchGroupReads(db, p, j);
        GroupReadsAnyBase(found[j], q.withAccountGroups.value, p.base);
      }
    }
  }

  lemma LoadedFlagged(db: Db, q: AccountQuery, nodes: seq<Row>, i: nat)
    requires i < |nodes|
    ensures Flagged(LoadedAccount(db, q, nodes, i), q)
  {
    assert q.withProxy.None? ==> ProxyOf(db, q, nodes, i) == None;
    assert q.withParent.None? ==> ParentOf(db, q, nodes, i) == None;
  }

  lemma LoadedReads(db: Db, q: AccountQuery, nodes: seq<Row>, i: nat, t: AccountTree)
    requires i < |nodes| && t == LoadedAccount(db, q, nodes, i) && Flagged(t, q)
    requires LinkReads(t.parent, q.withParent) && AllRead(t.children, q.withChildren)
    requires forall x | 0 <= x < |t.accountGroups| :: q.withAccountGroups.Some? && GroupReads(t.accountGroups[x], q.withAccountGroups.value)
    ensures Reads(t, q)
  {
  }

  lemma LoadedParts(db: Db, q: AccountQuery, nodes: seq<Row>, i: nat, t: AccountTree)
    requires i < |nodes| && t == LoadedAccount(db, q, nodes, i)
    ensures t.parent == ParentOf(db, q, nodes, i) && t.children == ChildrenOf(db, q, nodes, i)
    ensures t.accountGroups == AccountGroupsOf(db, q, nodes, i)
  {
  }

  lemma BatchIsLoaded(db: Db, q: AccountQuery, i: nat)
    requires i < |BatchAccounts(db, q)|
    ensures i < |AccountNodes(db, q)| && BatchAccounts(db, q)[i] == LoadedAccount(db, q, AccountNodes(db, q), i)
  {
    BatchAt(db, q, i);
  }

  /** Without any assumption: at every depth of every loaded account, an edge reads as not loaded iff it was not requested. */
  lemma {:induction false} BatchReads(db: Db, q: AccountQuery, i: nat)
    requires i < |BatchAccounts(db, q)|
    ensures Reads(BatchAccounts(db, q)[i], q)
    decreases Size(q), 1
  {
    var nodes, t := AccountNodes(db, q), BatchAccounts(db, q)[i];
    BatchIsLoaded(db, q, i);
    LoadedFlagged(db, q, nodes, i);
    ParentReads(db, q, nodes, i);
    ChildrenRead(db, q, nodes, i);
    AccountGroupsRead(db, q, nodes, i);
    LoadedParts(db, q, nodes, i, t);
    LoadedReads(db, q, nodes, i, t);
  }

  lemma {:induction false} OwnerReads(db: Db, q: AccountGroupQuery, nodes: seq<Row>, i: nat)
    requires i < |nodes|
    ensures LinkReads(OwnerOf(db, q, nodes, i), q.withAccount)
    decreases GroupSize(q), 0
  {
    if q.withAccount.Some? {
      var p := AccountsQuery(q, PlainKeySet(nodes, AccountID));
      var found := BatchAccounts(db, p);
      LatestOccurs(found, AccountKeys(found, ID), |found|, Some(Key(nodes[i], AccountID)));
      if OwnerOf(db, q, nodes, i).Some? {
        var j :| 0 <= j < |found| && OwnerOf(db, q, nodes, i) == Some(found[j]);
        BatchReads(db, p, j);
        ReadsAnyBase(found[j], q.withAccount.value, p.base);
      }
    }
  }

  lemma {:induction false} BatchGroupReads(db: Db, q: AccountGroupQuery, i: nat)
    requires i < |BatchAccountGroups(db, q)|
    ensures GroupReads(BatchAccountGroups(db, q)[i], q)
    decreases GroupSize(q), 1
  {
    var nodes := AccountGroupNodes(db, q);
    BatchGroupAt(db, q, i);
    assert q.withAccount.None? ==> OwnerOf(db, q, nodes, i) == None;
    assert q.withGroup.None? ==> GroupOf(db, q, nodes, i) == None;
    OwnerReads(db, q, nodes, i);
  }
}
