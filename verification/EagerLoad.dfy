/** The recursive loader: accounts and account-group rows, each edge loaded by one nested query. */
module EagerLoad {
  import opened Basics
  import opened EntSchema
  import opened EagerSpec
  import opened EagerTheorems
  import opened EntNodes
  import opened EagerEdges

  // ------------------------------------------- scatter loops onto account nodes

  method AssignParent(owners: seq<Account>, parent: Account, ghost nodes: seq<Account>, ghost keys: seq<Option<int>>, ghost k: int)
    requires |nodes| == |keys| && NoDuplicates(nodes) && owners == Owned(nodes, keys, k)
    modifies nodes`edges
    ensures forall i | 0 <= i < |nodes| ::
              nodes[i].edges == if keys[i] == Some(k) then old(nodes[i].edges).(parent := parent) else old(nodes[i].edges)
  {
    OwnedMembers(nodes, keys, |nodes|, k);
    for x := 0 to |owners|
      invariant forall i | 0 <= i < |nodes| ::
                  nodes[i].edges == if nodes[i] in owners[..x] then old(nodes[i].edges).(parent := parent) else old(nodes[i].edges)
    {
      assert owners[x] in owners && owners[..x + 1] == owners[..x] + [owners[x]];
      owners[x].edges := owners[x].edges.(parent := parent);
    }
    assert owners[..|owners|] == owners;
    forall i | 0 <= i < |nodes| ensures nodes[i] in owners <==> keys[i] == Some(k) {
      Listed(nodes, keys, k, i);
    }
  }

  method ScatterParents(nodes: seq<Account>, keys: seq<Option<int>>, nodeids: map<int, seq<Account>>,
                        found: seq<Account>, ghost fkeys: seq<Option<int>>)
    returns (err: Option<LoadError>)
    requires |nodes| == |keys| && NoDuplicates(nodes)
    requires |found| == |fkeys| && forall j | 0 <= j < |found| :: fkeys[j] == Some(found[j].id)
    requires forall k | k in nodeids :: nodeids[k] == Owned(nodes, keys, k)
    requires forall n | n in nodes :: n.edges.parent == null
    modifies nodes`edges
    ensures err.None? <==> forall j | 0 <= j < |found| :: found[j].id in nodeids
    ensures err.Some? ==> err.value.UnexpectedKey?
    ensures err.None? ==> forall i | 0 <= i < |nodes| ::
              nodes[i].edges == old(nodes[i].edges).(parent := Pointer(Latest(found, fkeys, keys[i])))
  {
    for j := 0 to |found|
      invariant forall x | 0 <= x < j :: found[x].id in nodeids
      invariant forall i | 0 <= i < |nodes| ::
                  nodes[i].edges == old(nodes[i].edges).(parent := Pointer(LatestUpTo(found, fkeys, j, keys[i], None)))
    {
      var k := found[j].id;
      if k !in nodeids {
        return Some(UnexpectedKey(k));
      }
      AssignParent(nodeids[k], found[j], nodes, keys, k);
    }
    return None;
  }

  method InitChildren(nodes: seq<Account>)
    requires NoDuplicates(nodes)
    modifies nodes`edges
    ensures forall i | 0 <= i < |nodes| :: nodes[i].edges == old(nodes[i].edges).(children := [])
  {
    for i := 0 to |nodes|
      invariant forall x | 0 <= x < i :: nodes[x].edges == old(nodes[x].edges).(children := [])
      invariant forall x | i <= x < |nodes| :: nodes[x].edges == old(nodes[x].edges)
    {
      nodes[i].edges := nodes[i].edges.(children := []);
    }
  }

  method GiveChild(nodes: seq<Account>, ghost held: seq<Option<int>>, byID: map<int, Account>, k: int, n: Account)
    requires Indexed(nodes, held, byID) && k in byID
    modifies nodes`edges
    ensures forall i | 0 <= i < |nodes| :: nodes[i].edges == old(nodes[i].edges).(
              children := old(nodes[i].edges).children + if held[i] == Some(k) then [n] else [])
  {
    var node := byID[k];
    node.edges := node.edges.(children := node.edges.children + [n]);
  }

  /** One neighbour of the loop in `loadChildren`, after the first `j`. */
  method NextChild(nodes: seq<Account>, ghost held: seq<Option<int>>, byID: map<int, Account>,
                   found: seq<Account>, ghost keys: seq<Option<int>>, j: nat, ghost before: seq<AccountEdges>)
    returns (err: Option<LoadError>)
    requires Indexed(nodes, held, byID) && |before| == |nodes|
    requires j < |found| == |keys| && keys[j] == found[j].parentAccountID
    requires forall i | 0 <= i < |nodes| :: nodes[i].edges == before[i].(children := OwnedBy(held[i], found, keys, j))
    modifies nodes`edges
    ensures err.None? <==> keys[j].Some? && keys[j].value in byID
    ensures err.Some? ==> err.value.UnexpectedKey? || err.value.NilForeignKey?
    ensures err.None? ==> forall i | 0 <= i < |nodes| ::
              nodes[i].edges == before[i].(children := OwnedBy(held[i], found, keys, j + 1))
  {
    var fk := found[j].parentAccountID;
    if fk.None? {
      return Some(NilForeignKey);
    }
    if fk.value !in byID {
      return Some(UnexpectedKey(fk.value));
    }
    OwnedByNext(held, found, keys, j);
    GiveChild(nodes, held, byID, fk.value, found[j]);
    return None;
  }

  method ScatterChildren(nodes: seq<Account>, ghost held: seq<Option<int>>, byID: map<int, Account>,
                         found: seq<Account>, ghost keys: seq<Option<int>>)
    returns (err: Option<LoadError>)
    requires Indexed(nodes, held, byID)
    requires |found| == |keys| && forall j | 0 <= j < |found| :: keys[j] == found[j].parentAccountID
    requires forall n | n in nodes :: n.edges.children == []
    modifies nodes`edges
    ensures err.None? <==> KnownUpTo(keys, |keys|, byID.Keys)
    ensures err.Some? ==> err.value.UnexpectedKey? || err.value.NilForeignKey?
    ensures err.None? ==> forall i | 0 <= i < |nodes| ::
              nodes[i].edges == old(nodes[i].edges).(children := OwnedBy(held[i], found, keys, |found|))
  {
    ghost var before := seq(|nodes|, i requires 0 <= i < |nodes| reads nodes => nodes[i].edges);
    for j := 0 to |found|
      invariant KnownUpTo(keys, j, byID.Keys)
      invariant forall i | 0 <= i < |nodes| :: nodes[i].edges == before[i].(children := OwnedBy(held[i], found, keys, j))
    {
      err := NextChild(nodes, held, byID, found, keys, j, before);
      if err.Some? {
        NotKnown(keys, j, |keys|, byID.Keys);
        return;
      }
    }
    return None;
  }

  method InitAccountGroups(nodes: seq<Account>)
    requires NoDuplicates(nodes)
    modifies nodes`edges
    ensures forall i | 0 <= i < |nodes| :: nodes[i].edges == old(nodes[i].edges).(accountGroups := [])
  {
    for i := 0 to |nodes|
      invariant forall x | 0 <= x < i :: nodes[x].edges == old(nodes[x].edges).(accountGroups := [])
      invariant forall x | i <= x < |nodes| :: nodes[x].edges == old(nodes[x].edges)
    {
      nodes[i].edges := nodes[i].edges.(accountGroups := []);
    }
  }

  method GiveAccountGroup(nodes: seq<Account>, ghost held: seq<Option<int>>, byID: map<int, Account>, k: int, n: AccountGroup)
    requires Indexed(nodes, held, byID) && k in byID
    modifies nodes`edges
    ensures forall i | 0 <= i < |nodes| :: nodes[i].edges == old(nodes[i].edges).(
              accountGroups := old(nodes[i].edges).accountGroups + if held[i] == Some(k) then [n] else [])
  {
    var node := byID[k];
    node.edges := node.edges.(accountGroups := node.edges.accountGroups + [n]);
  }

  method NextAccountGroup(nodes: seq<Account>, ghost held: seq<Option<int>>, byID: map<int, Account>,
                          found: seq<AccountGroup>, ghost keys: seq<Option<int>>, j: nat, ghost before: seq<AccountEdges>)
    returns (err: Option<LoadError>)
    requires Indexed(nodes, held, byID) && |before| == |nodes|
    requires j < |found| == |keys| && keys[j] == Some(found[j].accountID)
    requires forall i | 0 <= i < |nodes| :: nodes[i].edges == before[i].(accountGroups := OwnedBy(held[i], found, keys, j))
    modifies nodes`edges
    ensures err.None? <==> keys[j].value in byID
    ensures err.Some? ==> err.value.UnexpectedKey?
    ensures err.None? ==> forall i | 0 <= i < |nodes| ::
              nodes[i].edges == before[i].(accountGroups := OwnedBy(held[i], found, keys, j + 1))
  {
    var fk := found[j].accountID;
    if fk !in byID {
      return Some(UnexpectedKey(fk));
    }
    OwnedByNext(held, found, keys, j);
    GiveAccountGroup(nodes, held, byID, fk, found[j]);
    return None;
  }

  method ScatterAccountGroups(nodes: seq<Account>, ghost held: seq<Option<int>>, byID: map<int, Account>,
                              found: seq<AccountGroup>, ghost keys: seq<Option<int>>)
    returns (err: Option<LoadError>)
    requires Indexed(nodes, held, byID)
    requires |found| == |keys| && forall j | 0 <= j < |found| :: keys[j] == Some(found[j].accountID)
    requires forall n | n in nodes :: n.edges.accountGroups == []
    modifies nodes`edges
    ensures err.None? <==> KnownUpTo(keys, |keys|, byID.Keys)
    ensures err.Some? ==> err.value.UnexpectedKey?
    ensures err.None? ==> forall i | 0 <= i < |nodes| ::
              nodes[i].edges == old(nodes[i].edges).(accountGroups := OwnedBy(held[i], found, keys, |found|))
  {
    ghost var before := seq(|nodes|, i requires 0 <= i < |nodes| reads nodes => nodes[i].edges);
    for j := 0 to |found|
      invariant KnownUpTo(keys, j, byID.Keys)
      invariant forall i | 0 <= i < |nodes| :: nodes[i].edges == before[i].(accountGroups := OwnedBy(held[i], found, keys, j))
    {
      err := NextAccountGroup(nodes, held, byID, found, keys, j, before);
      if err.Some? {
        NotKnown(keys, j, |keys|, byID.Keys);
        return;
      }
    }
    return None;
  }

  // ------------------------------------------------- and onto account-group rows

  method AssignOwner(owners: seq<AccountGroup>, account: Account, ghost nodes: seq<AccountGroup>, ghost keys: seq<Option<int>>, ghost k: int)
    requires |nodes| == |keys| && NoDuplicates(nodes) && owners == Owned(nodes, keys, k)
    modifies nodes`edges
    ensures forall i | 0 <= i < |nodes| ::
              nodes[i].edges == if keys[i] == Some(k) then old(nodes[i].edges).(account := account) else old(nodes[i].edges)
  {
    OwnedMembers(nodes, keys, |nodes|, k);
    for x := 0 to |owners|
      invariant forall i | 0 <= i < |nodes| ::
                  nodes[i].edges == if nodes[i] in owners[..x] then old(nodes[i].edges).(account := account) else old(nodes[i].edges)
    {
      assert owners[x] in owners && owners[..x + 1] == owners[..x] + [owners[x]];
      owners[x].edges := owners[x].edges.(account := account);
    }
    assert owners[..|owners|] == owners;
    forall i | 0 <= i < |nodes| ensures nodes[i] in owners <==> keys[i] == Some(k) {
      Listed(nodes, keys, k, i);
    }
  }

  method ScatterOwners(nodes: seq<AccountGroup>, keys: seq<Option<int>>, nodeids: map<int, seq<AccountGroup>>,
                       found: seq<Account>, ghost fkeys: seq<Option<int>>)
    returns (err: Option<LoadError>)
    requires |nodes| == |keys| && NoDuplicates(nodes)
    requires |found| == |fkeys| && forall j | 0 <= j < |found| :: fkeys[j] == Some(found[j].id)
    requires forall k | k in nodeids :: nodeids[k] == Owned(nodes, keys, k)
    requires forall n | n in nodes :: n.edges.account == null
    modifies nodes`edges
    ensures err.None? <==> forall j | 0 <= j < |found| :: found[j].id in nodeids
    ensures err.Some? ==> err.value.UnexpectedKey?
    ensures err.None? ==> forall i | 0 <= i < |nodes| ::
              nodes[i].edges == old(nodes[i].edges).(account := Pointer(Latest(found, fkeys, keys[i])))
  {
    for j := 0 to |found|
      invariant forall x | 0 <= x < j :: found[x].id in nodeids
      invariant forall i | 0 <= i < |nodes| ::
                  nodes[i].edges == old(nodes[i].edges).(account := Pointer(LatestUpTo(found, fkeys, j, keys[i], None)))
    {
      var k := found[j].id;
      if k !in nodeids {
        return Some(UnexpectedKey(k));
      }
      AssignOwner(nodeids[k], found[j], nodes, keys, k);
    }
    return None;
  }

  // ------------------------------------------------------------ index helpers

  method IndexByParent(nodes: seq<Account>, ghost rows: seq<Row>)
    returns (keys: seq<Option<int>>, ids: seq<int>, nodeids: map<int, seq<Account>>)
    requires AreNodes(nodes, rows)
    ensures keys == Keys(rows, ParentAccountID)
    ensures (set k | k in ids) == nodeids.Keys == KeySet(rows, ParentAccountID)
    ensures forall i | 0 <= i < |keys| && keys[i].Some? :: keys[i].value in ids
    ensures forall k | k in nodeids :: nodeids[k] == Owned(nodes, keys, k)
  {
    keys := seq(|nodes|, i requires 0 <= i < |nodes| reads nodes => nodes[i].parentAccountID);
    ids, nodeids := IndexByKey(nodes, keys);
    KeysOfNodes(ids, keys, rows, ParentAccountID);
    var idSet := set k | k in ids;
    assert forall k :: k in nodeids.Keys <==> k in idSet;
  }

  method IndexByOwner(nodes: seq<AccountGroup>, ghost rows: seq<Row>)
    returns (keys: seq<Option<int>>, ids: seq<int>, nodeids: map<int, seq<AccountGroup>>)
    requires AreGroupNodes(nodes, rows)
    ensures keys == PlainKeys(rows, AccountID)
    ensures (set k | k in ids) == nodeids.Keys == PlainKeySet(rows, AccountID)
    ensures forall k | k in nodeids :: nodeids[k] == Owned(nodes, keys, k)
    ensures |ids| == 0 ==> |nodes| == 0
  {
    keys := seq(|nodes|, i requires 0 <= i < |nodes| reads nodes => Some(nodes[i].accountID));
    ids, nodeids := IndexByKey(nodes, keys);
    PlainKeysOfNodes(ids, keys, rows, AccountID);
    var idSet := set k | k in ids;
    assert forall k :: k in nodeids.Keys <==> k in idSet;
    NoKeysNoNodes(keys, ids);
  }

  // -------------------------------------------- what a nested query returns

  /** Accounts found by a narrowed query carry keys that the narrowing allows. */
  lemma AccountsWithin(db: Db, p: AccountQuery, c: Column, keys: set<int>)
    requires c in AccountColumns(db, p)
    ensures var ts := BatchAccounts(db, p.(base := Narrow(p.base, c, keys)));
            forall j | 0 <= j < |ts| :: IntAt(ts[j].values, c) == Some(Key(ts[j].values, c)) && Key(ts[j].values, c) in keys
  {
    var q := p.(base := Narrow(p.base, c, keys));
    var ts, selected := BatchAccounts(db, q), Select(db.accounts, q.base);
    assert AccountColumns(db, q) == AccountColumns(db, p);
    SelectedWithin(db.accounts, p.base, c, keys);
    forall j | 0 <= j < |ts|
      ensures IntAt(ts[j].values, c) == Some(Key(ts[j].values, c)) && Key(ts[j].values, c) in keys
    {
      BatchAt(db, q, j);
      assert selected[j] in selected;
    }
  }

  lemma AccountGroupsWithin(db: Db, p: AccountGroupQuery, c: Column, keys: set<int>)
    requires c in AccountGroupColumns(p)
    ensures var ts := BatchAccountGroups(db, p.(base := Narrow(p.base, c, keys)));
            forall j | 0 <= j < |ts| :: IntAt(ts[j].values, c) == Some(Key(ts[j].values, c)) && Key(ts[j].values, c) in keys
  {
    var q := p.(base := Narrow(p.base, c, keys));
    var ts, selected := BatchAccountGroups(db, q), Select(db.accountGroups, q.base);
    assert AccountGroupColumns(q) == AccountGroupColumns(p);
    SelectedWithin(db.accountGroups, p.base, c, keys);
    forall j | 0 <= j < |ts|
      ensures IntAt(ts[j].values, c) == Some(Key(ts[j].values, c)) && Key(ts[j].values, c) in keys
    {
      BatchGroupAt(db, q, j);
      assert selected[j] in selected;
    }
  }

  lemma ExpectedParents(db: Db, q: AccountQuery, rows: seq<Row>, ts: seq<AccountTree>)
    requires q.withParent.Some? && ts == BatchAccounts(db, ParentsQuery(q, KeySet(rows, ParentAccountID)))
    ensures forall j | 0 <= j < |ts| ::
              IntAt(ts[j].values, ID) == Some(Key(ts[j].values, ID)) && Key(ts[j].values, ID) in KeySet(rows, ParentAccountID)
    ensures forall i | 0 <= i < |rows| ::
              ParentOf(db, q, rows, i) == Latest(ts, AccountKeys(ts, ID), Keys(rows, ParentAccountID)[i])
  {
    AccountsWithin(db, q.withParent.value, ID, KeySet(rows, ParentAccountID));
  }

  lemma ExpectedChildren(db: Db, q: AccountQuery, rows: seq<Row>, ts: seq<AccountTree>)
    requires q.withChildren.Some? && ts == BatchAccounts(db, ChildrenQuery(q, PlainKeySet(rows, ID)))
    ensures forall j | 0 <= j < |ts| ::
              IntAt(ts[j].values, ParentAccountID).Some? && IntAt(ts[j].values, ParentAccountID).value in PlainKeySet(rows, ID)
    ensures forall i | 0 <= i < |rows| ::
              ChildrenOf(db, q, rows, i) == OwnedBy(HeldIds(rows)[i], ts, AccountKeys(ts, ParentAccountID), |ts|)
  {
    var p := q.withChildren.value;
    ForcedColumn(p.base, ParentAccountID);
    AccountsWithin(db, p.(base := ForceColumn(p.base, ParentAccountID)), ParentAccountID, PlainKeySet(rows, ID));
  }

  lemma ExpectedAccountGroups(db: Db, q: AccountQuery, rows: seq<Row>, ts: seq<AccountGroupTree>)
    requires q.withAccountGroups.Some? && ts == BatchAccountGroups(db, AccountGroupsQuery(q, PlainKeySet(rows, ID)))
    ensures forall j | 0 <= j < |ts| ::
              IntAt(ts[j].values, AccountID) == Some(Key(ts[j].values, AccountID)) && Key(ts[j].values, AccountID) in PlainKeySet(rows, ID)
    ensures forall i | 0 <= i < |rows| ::
              AccountGroupsOf(db, q, rows, i) == OwnedBy(HeldIds(rows)[i], ts, AccountGroupKeys(ts, AccountID), |ts|)
  {
    var p := q.withAccountGroups.value;
    ForcedColumn(p.base, AccountID);
    AccountGroupsWithin(db, p.(base := ForceColumn(p.base, AccountID)), AccountID, PlainKeySet(rows, ID));
  }

  lemma ExpectedOwners(db: Db, q: AccountGroupQuery, rows: seq<Row>, ts: seq<AccountTree>)
    requires q.withAccount.Some? && ts == BatchAccounts(db, AccountsQuery(q, PlainKeySet(rows, AccountID)))
    ensures forall j | 0 <= j < |ts| ::
              IntAt(ts[j].values, ID) == Some(Key(ts[j].values, ID)) && Key(ts[j].values, ID) in PlainKeySet(rows, AccountID)
    ensures forall i | 0 <= i < |rows| ::
              OwnerOf(db, q, rows, i) == Latest(ts, AccountKeys(ts, ID), PlainKeys(rows, AccountID)[i])
  {
    AccountsWithin(db, q.withAccount.value, ID, PlainKeySet(rows, AccountID));
  }

  lemma ParentsQueryFacts(db: Db, q: AccountQuery, keys: set<int>)
    requires q.withParent.Some?
    ensures Size(ParentsQuery(q, keys)) == Size(q.withParent.value)
    ensures ValidQuery(db, ParentsQuery(q, keys)) <==> ValidQuery(db, q.withParent.value)
  {
  }

  lemma ChildrenQueryFacts(db: Db, q: AccountQuery, keys: set<int>)
    requires q.withChildren.Some?
    ensures Size(ChildrenQuery(q, keys)) == Size(q.withChildren.value)
    ensures ValidQuery(db, ChildrenQuery(q, keys)) <==> ValidQuery(db, q.withChildren.value)
  {
    ForcedValid(q.withChildren.value.base, ParentAccountID, AccountTable(db));
  }

  lemma AccountGroupsQueryFacts(db: Db, q: AccountQuery, keys: set<int>)
    requires q.withAccountGroups.Some?
    ensures GroupSize(AccountGroupsQuery(q, keys)) == GroupSize(q.withAccountGroups.value)
    ensures ValidGroupQuery(db, AccountGroupsQuery(q, keys)) <==> ValidGroupQuery(db, q.withAccountGroups.value)
  {
    ForcedValid(q.withAccountGroups.value.base, AccountID, ACCOUNT_GROUP_TABLE);
  }

  lemma AccountsQueryFacts(db: Db, q: AccountGroupQuery, keys: set<int>)
    requires q.withAccount.Some?
    ensures Size(AccountsQuery(q, keys)) == Size(q.withAccount.value)
    ensures ValidQuery(db, AccountsQuery(q, keys)) <==> ValidQuery(db, q.withAccount.value)
  {
  }

  lemma OwnedByAccounts(ns: seq<Account>, ts: seq<AccountTree>, keys: seq<Option<int>>, held: Option<int>, fp: set<object>)
    requires AreAccounts(ns, ts, fp) && |keys| == |ts|
    ensures AreAccounts(OwnedBy(held, ns, keys, |ns|), OwnedBy(held, ts, keys, |ts|), fp)
  {
    if held.Some? {
      OwnedAccounts(ns, ts, keys, held.value, fp);
    }
  }

  lemma OwnedByAccountGroups(ns: seq<AccountGroup>, ts: seq<AccountGroupTree>, keys: seq<Option<int>>, held: Option<int>, fp: set<object>)
    requires AreAccountGroups(ns, ts, fp) && |keys| == |ts|
    ensures AreAccountGroups(OwnedBy(held, ns, keys, |ns|), OwnedBy(held, ts, keys, |ts|), fp)
  {
    if held.Some? {
      OwnedAccountGroups(ns, ts, keys, held.value, fp);
    }
  }

  // ----------------------------------- scattering found objects, as found trees

  ghost predicate Apart(nodes: seq<object>, fp: set<object>) {
    forall n | n in nodes :: n !in fp
  }

  method LinkParents(nodes: seq<Account>, keys: seq<Option<int>>, nodeids: map<int, seq<Account>>,
                     found: seq<Account>, ghost ts: seq<AccountTree>, ghost fp: set<object>)
    returns (err: Option<LoadError>)
    requires |nodes| == |keys| && NoDuplicates(nodes) && Apart(nodes, fp)
    requires forall k | k in nodeids :: nodeids[k] == Owned(nodes, keys, k)
    requires forall n | n in nodes :: n.edges.parent == null
    requires AreAccounts(found, ts, fp)
    requires forall j | 0 <= j < |ts| :: IntAt(ts[j].values, ID) == Some(Key(ts[j].values, ID)) && Key(ts[j].values, ID) in nodeids
    modifies nodes`edges
    ensures err.None?
    ensures forall i | 0 <= i < |nodes| ::
              && nodes[i].edges == old(nodes[i].edges).(parent := nodes[i].edges.parent)
              && LinkIs(nodes[i].edges.parent, Latest(ts, AccountKeys(ts, ID), keys[i]), fp)
  {
    err := ScatterParents(nodes, keys, nodeids, found, AccountKeys(ts, ID));
    forall i | 0 <= i < |nodes|
      ensures LinkIs(Pointer(Latest(found, AccountKeys(ts, ID), keys[i])), Latest(ts, AccountKeys(ts, ID), keys[i]), fp)
    {
      LatestAccounts(found, ts, AccountKeys(ts, ID), |ts|, keys[i], fp);
    }
  }

  method LinkOwners(nodes: seq<AccountGroup>, keys: seq<Option<int>>, nodeids: map<int, seq<AccountGroup>>,
                    found: seq<Account>, ghost ts: seq<AccountTree>, ghost fp: set<object>)
    returns (err: Option<LoadError>)
    requires |nodes| == |keys| && NoDuplicates(nodes) && Apart(nodes, fp)
    requires forall k | k in nodeids :: nodeids[k] == Owned(nodes, keys, k)
    requires forall n | n in nodes :: n.edges.account == null
    requires AreAccounts(found, ts, fp)
    requires forall j | 0 <= j < |ts| :: IntAt(ts[j].values, ID) == Some(Key(ts[j].values, ID)) && Key(ts[j].values, ID) in nodeids
    modifies nodes`edges
    ensures err.None?
    ensures forall i | 0 <= i < |nodes| ::
              && nodes[i].edges == old(nodes[i].edges).(account := nodes[i].edges.account)
              && LinkIs(nodes[i].edges.account, Latest(ts, AccountKeys(ts, ID), keys[i]), fp)
  {
    err := ScatterOwners(nodes, keys, nodeids, found, AccountKeys(ts, ID));
    forall i | 0 <= i < |nodes|
      ensures LinkIs(Pointer(Latest(found, AccountKeys(ts, ID), keys[i])), Latest(ts, AccountKeys(ts, ID), keys[i]), fp)
    {
      LatestAccounts(found, ts, AccountKeys(ts, ID), |ts|, keys[i], fp);
    }
  }

  method LinkChildren(nodes: seq<Account>, ghost held: seq<Option<int>>, byID: map<int, Account>,
                      found: seq<Account>, ghost ts: seq<AccountTree>, ghost fp: set<object>)
    returns (err: Option<LoadError>)
    requires Indexed(nodes, held, byID) && Apart(nodes, fp)
    requires forall n | n in nodes :: n.edges.children == []
    requires AreAccounts(found, ts, fp)
    requires forall j | 0 <= j < |ts| ::
               IntAt(ts[j].values, ParentAccountID).Some? && IntAt(ts[j].values, ParentAccountID).value in byID
    modifies nodes`edges
    ensures err.None?
    ensures forall i | 0 <= i < |nodes| ::
              && nodes[i].edges == old(nodes[i].edges).(children := nodes[i].edges.children)
              && AreAccounts(nodes[i].edges.children, OwnedBy(held[i], ts, AccountKeys(ts, ParentAccountID), |ts|), fp)
  {
    KnownIff(AccountKeys(ts, ParentAccountID), |ts|, byID.Keys);
    err := ScatterChildren(nodes, held, byID, found, AccountKeys(ts, ParentAccountID));
    forall i | 0 <= i < |nodes|
      ensures AreAccounts(OwnedBy(held[i], found, AccountKeys(ts, ParentAccountID), |found|),
                          OwnedBy(held[i], ts, AccountKeys(ts, ParentAccountID), |ts|), fp)
    {
      OwnedByAccounts(found, ts, AccountKeys(ts, ParentAccountID), held[i], fp);
    }
  }

  method LinkAccountGroups(nodes: seq<Account>, ghost held: seq<Option<int>>, byID: map<int, Account>,
                           found: seq<AccountGroup>, ghost ts: seq<AccountGroupTree>, ghost fp: set<object>)
    returns (err: Option<LoadError>)
    requires Indexed(nodes, held, byID) && Apart(nodes, fp)
    requires forall n | n in nodes :: n.edges.accountGroups == []
    requires AreAccountGroups(found, ts, fp)
    requires forall j | 0 <= j < |ts| ::
               IntAt(ts[j].values, AccountID) == Some(Key(ts[j].values, AccountID)) && Key(ts[j].values, AccountID) in byID
    modifies nodes`edges
    ensures err.None?
    ensures forall i | 0 <= i < |nodes| ::
              && nodes[i].edges == old(nodes[i].edges).(accountGroups := nodes[i].edges.accountGroups)
              && AreAccountGroups(nodes[i].edges.accountGroups, OwnedBy(held[i], ts, AccountGroupKeys(ts, AccountID), |ts|), fp)
  {
    KnownIff(AccountGroupKeys(ts, AccountID), |ts|, byID.Keys);
    err := ScatterAccountGroups(nodes, held, byID, found, AccountGroupKeys(ts, AccountID));
    forall i | 0 <= i < |nodes|
      ensures AreAccountGroups(OwnedBy(held[i], found, AccountGroupKeys(ts, AccountID), |found|),
                               OwnedBy(held[i], ts, AccountGroupKeys(ts, AccountID), |ts|), fp)
    {
      OwnedByAccountGroups(found, ts, AccountGroupKeys(ts, AccountID), held[i], fp);
    }
  }

  // ------------------------------------------------------------ recursive loads

  /** The parents query: what it finds, as objects and as the trees they stand for. */
  method FindParents(d: Driver, q: AccountQuery, ids: seq<int>, ghost rows: seq<Row>)
    returns (r: Result<seq<Account>, LoadError>, ghost ts: seq<AccountTree>, ghost fp: set<object>)
    requires q.withParent.Some? && (set k | k in ids) == KeySet(rows, ParentAccountID)
    modifies d
    ensures fresh(fp)
    ensures old(d.issued) <= d.issued <= old(d.issued) + Size(q.withParent.value)
    ensures r.Ok? ==> Quiet(d.faults, old(d.issued), d.issued) && AreAccounts(r.value, ts, fp)
    ensures r.Err? ==> Explained(r.error, ValidQuery(d.db, q.withParent.value), d.faults, old(d.issued), d.issued)
    ensures forall j | 0 <= j < |ts| ::
              IntAt(ts[j].values, ID) == Some(Key(ts[j].values, ID)) && Key(ts[j].values, ID) in KeySet(rows, ParentAccountID)
    ensures forall i | 0 <= i < |rows| ::
              ParentOf(d.db, q, rows, i) == Latest(ts, AccountKeys(ts, ID), Keys(rows, ParentAccountID)[i])
    decreases Size(q), 0
  {
    var p := ParentsQuery(q, set k | k in ids);
    ParentsQueryFacts(d.db, q, set k | k in ids);
    ts := BatchAccounts(d.db, p);
    ExpectedParents(d.db, q, rows, ts);
    r, fp := AllAccounts(d, p);
  }

  lemma NoParents(db: Db, q: AccountQuery, rows: seq<Row>, ids: seq<int>)
    requires q.withParent.Some? && |ids| == 0
    requires forall i | 0 <= i < |rows| && Keys(rows, ParentAccountID)[i].Some? :: Keys(rows, ParentAccountID)[i].value in ids
    ensures forall i | 0 <= i < |rows| :: ParentOf(db, q, rows, i) == None
  {
    var ts := BatchAccounts(db, ParentsQuery(q, KeySet(rows, ParentAccountID)));
    forall i | 0 <= i < |rows| ensures ParentOf(db, q, rows, i) == None {
      NoKeysNoneFound(ts, AccountKeys(ts, ID), Keys(rows, ParentAccountID), ids, i);
    }
  }

  method LoadParent(d: Driver, q: AccountQuery, nodes: seq<Account>, ghost rows: seq<Row>)
    returns (err: Option<LoadError>, ghost fp: set<object>)
    requires q.withParent.Some? && AreNodes(nodes, rows)
    requires forall n | n in nodes :: n.edges.parent == null
    modifies d, nodes`edges
    ensures fresh(fp)
    ensures old(d.issued) <= d.issued <= old(d.issued) + Size(q.withParent.value)
    ensures err.None? ==> Quiet(d.faults, old(d.issued), d.issued)
    ensures err.None? ==> forall i | 0 <= i < |nodes| ::
              && nodes[i].edges == old(nodes[i].edges).(parent := nodes[i].edges.parent)
              && LinkIs(nodes[i].edges.parent, ParentOf(d.db, q, rows, i), fp)
    ensures err.Some? ==> Explained(err.value, ValidQuery(d.db, q.withParent.value), d.faults, old(d.issued), d.issued)
    decreases Size(q), 1
  {
    fp := {};
    var keys, ids, nodeids := IndexByParent(nodes, rows);
    if |ids| == 0 {
      NoParents(d.db, q, rows, ids);
      return None, fp;
    }
    var all;
    ghost var ts;
    all, ts, fp := FindParents(d, q, ids, rows);
    if all.Err? {
      return Some(all.error), fp;
    }
    err := LinkParents(nodes, keys, nodeids, all.value, ts, fp);
  }

  method FindChildren(d: Driver, q: AccountQuery, fks: set<int>, ghost rows: seq<Row>)
    returns (r: Result<seq<Account>, LoadError>, ghost ts: seq<AccountTree>, ghost fp: set<object>)
    requires q.withChildren.Some? && fks == PlainKeySet(rows, ID)
    modifies d
    ensures fresh(fp)
    ensures old(d.issued) <= d.issued <= old(d.issued) + Size(q.withChildren.value)
    ensures r.Ok? ==> Quiet(d.faults, old(d.issued), d.issued) && AreAccounts(r.value, ts, fp)
    ensures r.Err? ==> Explained(r.error, ValidQuery(d.db, q.withChildren.value), d.faults, old(d.issued), d.issued)
    ensures forall j | 0 <= j < |ts| ::
              IntAt(ts[j].values, ParentAccountID).Some? && IntAt(ts[j].values, ParentAccountID).value in fks
    ensures forall i | 0 <= i < |rows| ::
              ChildrenOf(d.db, q, rows, i) == OwnedBy(HeldIds(rows)[i], ts, AccountKeys(ts, ParentAccountID), |ts|)
    decreases Size(q), 0
  {
    var p := ChildrenQuery(q, fks);
    ChildrenQueryFacts(d.db, q, fks);
    ts := BatchAccounts(d.db, p);
    ExpectedChildren(d.db, q, rows, ts);
    r, fp := AllAccounts(d, p);
  }

  method LoadChildren(d: Driver, q: AccountQuery, nodes: seq<Account>, ghost rows: seq<Row>)
    returns (err: Option<LoadError>, ghost fp: set<object>)
    requires q.withChildren.Some? && AreNodes(nodes, rows)
    modifies d, nodes`edges
    ensures fresh(fp)
    ensures old(d.issued) <= d.issued <= old(d.issued) + Size(q.withChildren.value)
    ensures err.None? ==> Quiet(d.faults, old(d.issued), d.issued)
    ensures err.None? ==> forall i | 0 <= i < |nodes| ::
              && nodes[i].edges == old(nodes[i].edges).(children := nodes[i].edges.children)
              && AreAccounts(nodes[i].edges.children, ChildrenOf(d.db, q, rows, i), fp)
    ensures err.Some? ==> Explained(err.value, ValidQuery(d.db, q.withChildren.value), d.faults, old(d.issued), d.issued)
    decreases Size(q), 1
  {
    var fks, byID := IndexById(nodes, rows);
    InitChildren(nodes);
    var all;
    ghost var ts;
    all, ts, fp := FindChildren(d, q, fks, rows);
    if all.Err? {
      return Some(all.error), fp;
    }
    err := LinkChildren(nodes, HeldIds(rows), byID, all.value, ts, fp);
  }

  method FindAccountGroups(d: Driver, q: AccountQuery, fks: set<int>, ghost rows: seq<Row>)
    returns (r: Result<seq<AccountGroup>, LoadError>, ghost ts: seq<AccountGroupTree>, ghost fp: set<object>)
    requires q.withAccountGroups.Some? && fks == PlainKeySet(rows, ID)
    modifies d
    ensures fresh(fp)
    ensures old(d.issued) <= d.issued <= old(d.issued) + GroupSize(q.withAccountGroups.value)
    ensures r.Ok? ==> Quiet(d.faults, old(d.issued), d.issued) && AreAccountGroups(r.value, ts, fp)
    ensures r.Err? ==> Explained(r.error, ValidGroupQuery(d.db, q.withAccountGroups.value), d.faults, old(d.issued), d.issued)
    ensures forall j | 0 <= j < |ts| ::
              IntAt(ts[j].values, AccountID) == Some(Key(ts[j].values, AccountID)) && Key(ts[j].values, AccountID) in fks
    ensures forall i | 0 <= i < |rows| ::
              AccountGroupsOf(d.db, q, rows, i) == OwnedBy(HeldIds(rows)[i], ts, AccountGroupKeys(ts, AccountID), |ts|)
    decreases Size(q), 0
  {
    var p := AccountGroupsQuery(q, fks);
    AccountGroupsQueryFacts(d.db, q, fks);
    ts := BatchAccountGroups(d.db, p);
    ExpectedAccountGroups(d.db, q, rows, ts);
    r, fp := AllAccountGroups(d, p);
  }

  method LoadAccountGroups(d: Driver, q: AccountQuery, nodes: seq<Account>, ghost rows: seq<Row>)
    returns (err: Option<LoadError>, ghost fp: set<object>)
    requires q.withAccountGroups.Some? && AreNodes(nodes, rows)
    modifies d, nodes`edges
    ensures fresh(fp)
    ensures old(d.issued) <= d.issued <= old(d.issued) + GroupSize(q.withAccountGroups.value)
    ensures err.None? ==> Quiet(d.faults, old(d.issued), d.issued)
    ensures err.None? ==> forall i | 0 <= i < |nodes| ::
              && nodes[i].edges == old(nodes[i].edges).(accountGroups := nodes[i].edges.accountGroups)
              && AreAccountGroups(nodes[i].edges.accountGroups, AccountGroupsOf(d.db, q, rows, i), fp)
    ensures err.Some? ==> Explained(err.value, ValidGroupQuery(d.db, q.withAccountGroups.value), d.faults, old(d.issued), d.issued)
    decreases Size(q), 1
  {
    var fks, byID := IndexById(nodes, rows);
    InitAccountGroups(nodes);
    var all;
    ghost var ts;
    all, ts, fp := FindAccountGroups(d, q, fks, rows);
    if all.Err? {
      return Some(all.error), fp;
    }
    err := LinkAccountGroups(nodes, HeldIds(rows), byID, all.value, ts, fp);
  }

  method FindOwners(d: Driver, q: AccountGroupQuery, ids: seq<int>, ghost rows: seq<Row>)
    returns (r: Result<seq<Account>, LoadError>, ghost ts: seq<AccountTree>, ghost fp: set<object>)
    requires q.withAccount.Some? && (set k | k in ids) == PlainKeySet(rows, AccountID)
    modifies d
    ensures fresh(fp)
    ensures old(d.issued) <= d.issued <= old(d.issued) + Size(q.withAccount.value)
    ensures r.Ok? ==> Quiet(d.faults, old(d.issued), d.issued) && AreAccounts(r.value, ts, fp)
    ensures r.Err? ==> Explained(r.error, ValidQuery(d.db, q.withAccount.value), d.faults, old(d.issued), d.issued)
    ensures forall j | 0 <= j < |ts| ::
              IntAt(ts[j].values, ID) == Some(Key(ts[j].values, ID)) && Key(ts[j].values, ID) in PlainKeySet(rows, AccountID)
    ensures forall i | 0 <= i < |rows| ::
              OwnerOf(d.db, q, rows, i) == Latest(ts, AccountKeys(ts, ID), PlainKeys(rows, AccountID)[i])
    decreases GroupSize(q), 0
  {
    var p := AccountsQuery(q, set k | k in ids);
    AccountsQueryFacts(d.db, q, set k | k in ids);
    ts := BatchAccounts(d.db, p);
    ExpectedOwners(d.db, q, rows, ts);
    r, fp := AllAccounts(d, p);
  }

  /** The `account` edge of account-group rows. */
  method LoadAccount(d: Driver, q: AccountGroupQuery, nodes: seq<AccountGroup>, ghost rows: seq<Row>)
    returns (err: Option<LoadError>, ghost fp: set<object>)
    requires q.withAccount.Some? && AreGroupNodes(nodes, rows)
    requires forall n | n in nodes :: n.edges.account == null
    modifies d, nodes`edges
    ensures fresh(fp)
    ensures old(d.issued) <= d.issued <= old(d.issued) + Size(q.withAccount.value)
    ensures err.None? ==> Quiet(d.faults, old(d.issued), d.issued)
    ensures err.None? ==> forall i | 0 <= i < |nodes| ::
              && nodes[i].edges == old(nodes[i].edges).(account := nodes[i].edges.account)
              && LinkIs(nodes[i].edges.account, OwnerOf(d.db, q, rows, i), fp)
    ensures err.Some? ==> Explained(err.value, ValidQuery(d.db, q.withAccount.value), d.faults, old(d.issued), d.issued)
    decreases GroupSize(q), 1
  {
    fp := {};
    var keys, ids, nodeids := IndexByOwner(nodes, rows);
    if |ids| == 0 {
      return None, fp;
    }
    var all;
    ghost var ts;
    all, ts, fp := FindOwners(d, q, ids, rows);
    if all.Err? {
      return Some(all.error), fp;
    }
    err := LinkOwners(nodes, keys, nodeids, all.value, ts, fp);
  }

  // --------------------------------------------------------------- the node query

  /** The `Assign` callback, row by row: a fresh node object for every fetched row. */
  method NewAccounts(columns: seq<Column>, fetched: seq<seq<Cell>>, loaded: seq<bool>, ghost rows: seq<Row>)
    returns (nodes: seq<Account>)
    requires |fetched| == |rows| && forall i | 0 <= i < |rows| :: fetched[i] == Fetch(rows[i], columns)
    ensures forall n | n in nodes :: fresh(n) && n.edges == AccountEdges([], None, null, [], [], [], loaded)
    ensures AreNodes(nodes, ProjectAll(rows, columns))
  {
    nodes := [];
    for k := 0 to |fetched|
      invariant |nodes| == k && NoDuplicates(nodes)
      invariant forall n | n in nodes :: fresh(n) && n.edges == AccountEdges([], None, null, [], [], [], loaded)
      invariant forall i | 0 <= i < k :: nodes[i].Scanned(Project(rows[i], columns))
    {
      var node := new Account(loaded);
      var ok := node.AssignValues(columns, fetched[k], rows[k]);
      assert forall n | n in nodes :: n != node;
      nodes := nodes + [node];
    }
  }

  method NewAccountGroups(columns: seq<Column>, fetched: seq<seq<Cell>>, loaded: seq<bool>, ghost rows: seq<Row>)
    returns (nodes: seq<AccountGroup>)
    requires |fetched| == |rows| && forall i | 0 <= i < |rows| :: fetched[i] == Fetch(rows[i], columns)
    ensures forall n | n in nodes :: fresh(n) && n.edges == AccountGroupEdges(null, None, loaded)
    ensures AreGroupNodes(nodes, ProjectAll(rows, columns))
  {
    nodes := [];
    for k := 0 to |fetched|
      invariant |nodes| == k && NoDuplicates(nodes)
      invariant forall n | n in nodes :: fresh(n) && n.edges == AccountGroupEdges(null, None, loaded)
      invariant forall i | 0 <= i < k :: nodes[i].Scanned(Project(rows[i], columns))
    {
      var node := new AccountGroup(loaded);
      var ok := node.AssignValues(columns, fetched[k], rows[k]);
      assert forall n | n in nodes :: n != node;
      nodes := nodes + [node];
    }
  }

  /** The fetched cells as fresh node objects, no edge loaded. */
  method AccountsOf(ghost db: Db, q: AccountQuery, columns: seq<Column>, fetched: seq<seq<Cell>>) returns (nodes: seq<Account>)
    requires columns == AccountColumns(db, q) && |fetched| == |Select(db.accounts, q.base)|
    requires forall i | 0 <= i < |fetched| :: fetched[i] == Fetch(Select(db.accounts, q.base)[i], columns)
    ensures AreNodes(nodes, AccountNodes(db, q))
    ensures forall n | n in nodes :: fresh(n) && n.edges == AccountEdges([], None, null, [], [], [], Loaded(q))
  {
    nodes := NewAccounts(columns, fetched, Loaded(q), Select(db.accounts, q.base));
  }

  method AccountGroupRowsOf(ghost db: Db, q: AccountGroupQuery, columns: seq<Column>, fetched: seq<seq<Cell>>) returns (nodes: seq<AccountGroup>)
    requires columns == AccountGroupColumns(q) && |fetched| == |Select(db.accountGroups, q.base)|
    requires forall i | 0 <= i < |fetched| :: fetched[i] == Fetch(Select(db.accountGroups, q.base)[i], columns)
    ensures AreGroupNodes(nodes, AccountGroupNodes(db, q))
    ensures forall n | n in nodes :: fresh(n) && n.edges == AccountGroupEdges(null, None, GroupLoaded(q))
  {
    nodes := NewAccountGroups(columns, fetched, GroupLoaded(q), Select(db.accountGroups, q.base));
  }

  /** One scan of the accounts table into fresh node objects, no edge loaded. */
  method ScanAccounts(d: Driver, q: AccountQuery) returns (r: Result<seq<Account>, LoadError>)
    modifies d
    ensures old(d.issued) <= d.issued <= old(d.issued) + 1
    ensures r.Ok? ==> Quiet(d.faults, old(d.issued), d.issued)
    ensures r.Ok? ==> AreNodes(r.value, AccountNodes(d.db, q))
    ensures r.Ok? ==> forall n | n in r.value :: fresh(n) && n.edges == AccountEdges([], None, null, [], [], [], Loaded(q))
    ensures r.Err? ==> Explained(r.error, ValidFields(q.base.fields, AccountTable(d.db)), d.faults, old(d.issued), d.issued)
  {
    var bad := PrepareQuery(q.base.fields, AccountTable(d.db));
    if bad.Some? {
      return Err(bad.value);
    }
    var columns := AccountColumns(d.db, q);
    var fetched := d.QueryNodes(d.db.accounts, q.base, columns);
    if fetched.Err? {
      return Err(fetched.error);
    }
    var nodes := AccountsOf(d.db, q, columns, fetched.value);
    r := Ok(nodes);
  }

  method ScanAccountGroups(d: Driver, q: AccountGroupQuery) returns (r: Result<seq<AccountGroup>, LoadError>)
    modifies d
    ensures old(d.issued) <= d.issued <= old(d.issued) + 1
    ensures r.Ok? ==> Quiet(d.faults, old(d.issued), d.issued)
    ensures r.Ok? ==> AreGroupNodes(r.value, AccountGroupNodes(d.db, q))
    ensures r.Ok? ==> forall n | n in r.value :: fresh(n) && n.edges == AccountGroupEdges(null, None, GroupLoaded(q))
    ensures r.Err? ==> Explained(r.error, ValidFields(q.base.fields, ACCOUNT_GROUP_TABLE), d.faults, old(d.issued), d.issued)
  {
    var bad := PrepareQuery(q.base.fields, ACCOUNT_GROUP_TABLE);
    if bad.Some? {
      return Err(bad.value);
    }
    var columns := AccountGroupColumns(q);
    var fetched := d.QueryNodes(d.db.accountGroups, q.base, columns);
    if fetched.Err? {
      return Err(fetched.error);
    }
    var nodes := AccountGroupRowsOf(d.db, q, columns, fetched.value);
    r := Ok(nodes);
  }

  // ------------------------------------------------- the six loads, in any order

  function EdgeSize(e: Edge, q: AccountQuery): nat {
    match e
    case Groups => OneIf(q.withGroups)
    case Proxy => OneIf(q.withProxy)
    case Parent => (match q.withParent case None => 0 case Some(p) => Size(p))
    case Children => (match q.withChildren case None => 0 case Some(p) => Size(p))
    case UsageLogs => OneIf(q.withUsageLogs)
    case AccountGroups => (match q.withAccountGroups case None => 0 case Some(p) => GroupSize(p))
  }

  ghost predicate EmptyEdge(e: Edge, es: AccountEdges) {
    match e
    case Groups => es.groups == []
    case Proxy => es.proxy == None
    case Parent => es.parent == null
    case Children => es.children == []
    case UsageLogs => es.usageLogs == []
    case AccountGroups => es.accountGroups == []
  }

  /** Nothing but edge `e` differs. */
  ghost predicate OnlyEdge(e: Edge, before: AccountEdges, after: AccountEdges) {
    match e
    case Groups => after == before.(groups := after.groups)
    case Proxy => after == before.(proxy := after.proxy)
    case Parent => after == before.(parent := after.parent)
    case Children => after == before.(children := after.children)
    case UsageLogs => after == before.(usageLogs := after.usageLogs)
    case AccountGroups => after == before.(accountGroups := after.accountGroups)
  }

  ghost predicate ValidEdge(e: Edge, db: Db, q: AccountQuery) {
    match e
    case Groups => ValidLeaf(q.withGroups, GroupTable(db))
    case Proxy => ValidLeaf(q.withProxy, ProxyTable(db))
    case Parent => q.withParent.Some? ==> ValidQuery(db, q.withParent.value)
    case Children => q.withChildren.Some? ==> ValidQuery(db, q.withChildren.value)
    case UsageLogs => ValidLeaf(q.withUsageLogs, UsageLogTable(db))
    case AccountGroups => q.withAccountGroups.Some? ==> ValidGroupQuery(db, q.withAccountGroups.value)
  }

  /** One edge, if it is requested: it touches that edge only, and what it loads depends on the scanned rows only. */
  method LoadEdge(e: Edge, d: Driver, q: AccountQuery, nodes: seq<Account>, ghost rows: seq<Row>)
    returns (err: Option<LoadError>, ghost fp: set<object>)
    requires AreNodes(nodes, rows)
    requires forall n | n in nodes :: EmptyEdge(e, n.edges)
    modifies d, nodes`edges
    ensures fresh(fp)
    ensures old(d.issued) <= d.issued <= old(d.issued) + EdgeSize(e, q)
    ensures err.None? ==> Quiet(d.faults, old(d.issued), d.issued)
    ensures err.None? ==> forall i | 0 <= i < |nodes| ::
              && OnlyEdge(e, old(nodes[i].edges), nodes[i].edges)
              && EdgeIs(e, nodes[i].edges, LoadedAccount(d.db, q, rows, i), fp)
    ensures err.Some? ==> Explained(err.value, ValidEdge(e, d.db, q), d.faults, old(d.issued), d.issued)
    decreases Size(q), 2
  {
    err, fp := None, {};
    match e {
      case Groups => if q.withGroups.Some? { err := LoadGroups(d, q, nodes, rows); }
      case Proxy => if q.withProxy.Some? { err := LoadProxy(d, q, nodes, rows); }
      case Parent => if q.withParent.Some? { err, fp := LoadParent(d, q, nodes, rows); }
      case Children => if q.withChildren.Some? { err, fp := LoadChildren(d, q, nodes, rows); }
      case UsageLogs => if q.withUsageLogs.Some? { err := LoadUsageLogs(d, q, nodes, rows); }
      case AccountGroups => if q.withAccountGroups.Some? { err, fp := LoadAccountGroups(d, q, nodes, rows); }
    }
  }

  ghost function SizeIf(done: bool, e: Edge, q: AccountQuery): nat {
    if done then EdgeSize(e, q) else 0
  }

  /** The queries that the edges loaded so far may have cost. */
  ghost function Spent(done: seq<Edge>, q: AccountQuery): nat {
    SizeIf(Groups in done, Groups, q) + SizeIf(Proxy in done, Proxy, q) + SizeIf(Parent in done, Parent, q)
    + SizeIf(Children in done, Children, q) + SizeIf(UsageLogs in done, UsageLogs, q)
    + SizeIf(AccountGroups in done, AccountGroups, q)
  }

  lemma SpentStep(order: seq<Edge>, x: nat, q: AccountQuery)
    requires x < |order| && NoDuplicates(order)
    ensures order[x] !in order[..x]
    ensures forall e: Edge :: e in order[..x + 1] <==> e in order[..x] || e == order[x]
    ensures Spent(order[..x + 1], q) == Spent(order[..x], q) + EdgeSize(order[x], q)
  {
    assert order[..x + 1] == order[..x] + [order[x]];
  }

  lemma SpentBound(done: seq<Edge>, q: AccountQuery)
    ensures Spent(done, q) < Size(q)
  {
  }

  lemma SpentNext(order: seq<Edge>, x: nat, q: AccountQuery)
    requires x < |order| && NoDuplicates(order)
    ensures Spent(order[..x], q) + EdgeSize(order[x], q) == Spent(order[..x + 1], q) < Size(q)
  {
    SpentStep(order, x, q);
    SpentBound(order[..x + 1], q);
  }

  /** An edge that a later load left alone still stands for its part of the tree, inside the larger footprint. */
  lemma EdgeKept(e: Edge, other: Edge, before: AccountEdges, after: AccountEdges, t: AccountTree, fp: set<object>, more: set<object>)
    requires e != other && OnlyEdge(other, before, after) && EdgeIs(e, before, t, fp) && fp <= more
    ensures EdgeIs(e, after, t, more)
  {
    EdgeGrows(e, before, t, fp, more);
  }

  lemma EmptyKept(e: Edge, other: Edge, before: AccountEdges, after: AccountEdges)
    requires e != other && OnlyEdge(other, before, after) && EmptyEdge(e, before)
    ensures EmptyEdge(e, after)
  {
  }

  lemma LoadedKept(other: Edge, before: AccountEdges, after: AccountEdges)
    requires OnlyEdge(other, before, after)
    ensures before.loaded == after.loaded
  {
  }

  /** How far loading has come: the edges done stand for the tree, the others are still empty. */
  ghost predicate Progress(nodes: seq<Account>, done: seq<Edge>, db: Db, q: AccountQuery, rows: seq<Row>, fp: set<object>)
    requires |nodes| == |rows|
    reads nodes, fp
  {
    forall i | 0 <= i < |nodes| ::
      && nodes[i].edges.loaded == Loaded(q)
      && (forall e: Edge | e in done :: EdgeIs(e, nodes[i].edges, LoadedAccount(db, q, rows, i), fp))
      && (forall e: Edge | e !in done :: EmptyEdge(e, nodes[i].edges))
  }

  /** Progress, said of edge structs instead of the nodes that hold them. */
  ghost predicate ProgressOf(es: seq<AccountEdges>, done: seq<Edge>, db: Db, q: AccountQuery, rows: seq<Row>, fp: set<object>)
    requires |es| == |rows|
    reads fp
  {
    forall i | 0 <= i < |es| ::
      && es[i].loaded == Loaded(q)
      && (forall e: Edge | e in done :: EdgeIs(e, es[i], LoadedAccount(db, q, rows, i), fp))
      && (forall e: Edge | e !in done :: EmptyEdge(e, es[i]))
  }

  lemma NextProgress(before: seq<AccountEdges>, after: seq<AccountEdges>, order: seq<Edge>, x: nat, db: Db, q: AccountQuery,
                     rows: seq<Row>, fp: set<object>, more: set<object>)
    requires x < |order| && NoDuplicates(order) && |before| == |after| == |rows|
    requires ProgressOf(before, order[..x], db, q, rows, fp)
    requires forall i | 0 <= i < |rows| ::
               OnlyEdge(order[x], before[i], after[i]) && EdgeIs(order[x], after[i], LoadedAccount(db, q, rows, i), more)
    ensures ProgressOf(after, order[..x + 1], db, q, rows, fp + more)
  {
    SpentStep(order, x, q);
    forall i | 0 <= i < |rows|
      ensures after[i].loaded == Loaded(q)
      ensures forall e: Edge | e in order[..x + 1] :: EdgeIs(e, after[i], LoadedAccount(db, q, rows, i), fp + more)
      ensures forall e: Edge | e !in order[..x + 1] :: EmptyEdge(e, after[i])
    {
      LoadedKept(order[x], before[i], after[i]);
      forall e: Edge | e in order[..x + 1] ensures EdgeIs(e, after[i], LoadedAccount(db, q, rows, i), fp + more) {
        if e == order[x] {
          EdgeGrows(e, after[i], LoadedAccount(db, q, rows, i), more, fp + more);
        } else {
          EdgeKept(e, order[x], before[i], after[i], LoadedAccount(db, q, rows, i), fp, fp + more);
        }
      }
      forall e: Edge | e !in order[..x + 1] ensures EmptyEdge(e, after[i]) {
        EmptyKept(e, order[x], before[i], after[i]);
      }
    }
  }

  /** One step of loading, and what it keeps. */
  method LoadNext(order: seq<Edge>, x: nat, d: Driver, q: AccountQuery, nodes: seq<Account>, ghost rows: seq<Row>, ghost fp: set<object>)
    returns (err: Option<LoadError>, ghost more: set<object>)
    requires x < |order| && NoDuplicates(order)
    requires AreNodes(nodes, rows) && Apart(nodes, fp) && d !in fp
    requires Progress(nodes, order[..x], d.db, q, rows, fp)
    modifies d, nodes`edges
    ensures fresh(more)
    ensures old(d.issued) <= d.issued <= old(d.issued) + EdgeSize(order[x], q)
    ensures err.None? ==> Quiet(d.faults, old(d.issued), d.issued)
    ensures err.None? ==> Progress(nodes, order[..x + 1], d.db, q, rows, fp + more)
    ensures err.Some? ==> Explained(err.value, ValidEdge(order[x], d.db, q), d.faults, old(d.issued), d.issued)
    decreases Size(q), 3
  {
    SpentStep(order, x, q);
    ghost var before := seq(|nodes|, i requires 0 <= i < |nodes| reads nodes => nodes[i].edges);
    assert ProgressOf(before, order[..x], d.db, q, rows, fp);
    err, more := LoadEdge(order[x], d, q, nodes, rows);
    if err.None? {
      ghost var after := seq(|nodes|, i requires 0 <= i < |nodes| reads nodes => nodes[i].edges);
      NextProgress(before, after, order, x, d.db, q, rows, fp, more);
    }
  }

  /** An edge's error is an error of the whole query. */
  lemma ExplainedByQuery(err: LoadError, e: Edge, db: Db, q: AccountQuery, faults: set<nat>, from: nat, mid: nat, to: nat)
    requires from <= mid <= to && Explained(err, ValidEdge(e, db, q), faults, mid, to)
    ensures Explained(err, ValidQuery(db, q), faults, from, to)
  {
    assert ValidQuery(db, q) ==> ValidEdge(e, db, q);
    if !Quiet(faults, mid, to) {
      var k :| mid <= k < to && k in faults;
      assert from <= k < to;
    }
  }

  /** The loads of `sqlAll`: any order of the six gives the same accounts. */
  method LoadEdges(order: seq<Edge>, d: Driver, q: AccountQuery, nodes: seq<Account>, ghost rows: seq<Row>)
    returns (err: Option<LoadError>, ghost fp: set<object>)
    requires NoDuplicates(order) && forall e: Edge :: e in order
    requires AreNodes(nodes, rows)
    requires forall n | n in nodes :: n.edges == AccountEdges([], None, null, [], [], [], Loaded(q))
    modifies d, nodes`edges
    ensures fresh(fp)
    ensures old(d.issued) <= d.issued < old(d.issued) + Size(q)
    ensures err.None? ==> Quiet(d.faults, old(d.issued), d.issued)
    ensures AreNodes(nodes, rows)
    ensures err.None? ==> Progress(nodes, order, d.db, q, rows, fp)
    ensures err.Some? ==> Explained(err.value, ValidQuery(d.db, q), d.faults, old(d.issued), d.issued)
    decreases Size(q), 4
  {
    fp := {};
    for x := 0 to |order|
      invariant AreNodes(nodes, rows)
      invariant fresh(fp) && Apart(nodes, fp) && d !in fp
      invariant old(d.issued) <= d.issued <= old(d.issued) + Spent(order[..x], q)
      invariant Quiet(d.faults, old(d.issued), d.issued)
      invariant Progress(nodes, order[..x], d.db, q, rows, fp)
    {
      SpentNext(order, x, q);
      ghost var more, mid := {}, d.issued;
      err, more := LoadNext(order, x, d, q, nodes, rows, fp);
      if err.Some? {
        ExplainedByQuery(err.value, order[x], d.db, q, d.faults, old(d.issued), mid, d.issued);
        return;
      }
      fp := fp + more;
    }
    SpentBound(order[..|order|], q);
    assert order[..|order|] == order;
    err := None;
  }

  // ------------------------------------------------------------------- sqlAll

  const SOURCE_ORDER: seq<Edge> := [Groups, Proxy, Parent, Children, UsageLogs, AccountGroups]

  lemma SourceOrderComplete()
    ensures NoDuplicates(SOURCE_ORDER) && forall e: Edge :: e in SOURCE_ORDER
  {
    forall e: Edge ensures e in SOURCE_ORDER {
      match e
      case Groups => assert SOURCE_ORDER[0] == e;
      case Proxy => assert SOURCE_ORDER[1] == e;
      case Parent => assert SOURCE_ORDER[2] == e;
      case Children => assert SOURCE_ORDER[3] == e;
      case UsageLogs => assert SOURCE_ORDER[4] == e;
      case AccountGroups => assert SOURCE_ORDER[5] == e;
    }
  }

  ghost function NodeSet(nodes: seq<object>): set<object> {
    set n | n in nodes
  }

  /** When every edge is done, the node objects stand for the batched trees. */
  lemma AllLoaded(nodes: seq<Account>, order: seq<Edge>, db: Db, q: AccountQuery, inner: set<object>)
    requires forall e: Edge :: e in order
    requires AreNodes(nodes, AccountNodes(db, q)) && Progress(nodes, order, db, q, AccountNodes(db, q), inner)
    ensures AreAccounts(nodes, BatchAccounts(db, q), inner + NodeSet(nodes))
  {
    var rows, fp := AccountNodes(db, q), inner + NodeSet(nodes);
    forall i | 0 <= i < |nodes|
      ensures IsAccount(nodes[i], BatchAccounts(db, q)[i], fp)
    {
      BatchAt(db, q, i);
      forall e: Edge ensures EdgeIs(e, nodes[i].edges, LoadedAccount(db, q, rows, i), fp) {
        EdgeGrows(e, nodes[i].edges, LoadedAccount(db, q, rows, i), inner, fp);
      }
    }
  }

  /** `AccountQuery.All`: the fresh objects stand for the batched trees, for at most one query per `With*` node. */
  method AllAccounts(d: Driver, q: AccountQuery) returns (r: Result<seq<Account>, LoadError>, ghost fp: set<object>)
    modifies d
    ensures fresh(fp)
    ensures old(d.issued) <= d.issued <= old(d.issued) + Size(q)
    ensures r.Ok? ==> Quiet(d.faults, old(d.issued), d.issued)
    ensures r.Ok? ==> AreAccounts(r.value, BatchAccounts(d.db, q), fp)
    ensures r.Err? ==> Explained(r.error, ValidQuery(d.db, q), d.faults, old(d.issued), d.issued)
    decreases Size(q), 5
  {
    fp := {};
    r := ScanAccounts(d, q);
    if r.Err? || |r.value| == 0 {
      return;
    }
    var nodes := r.value;
    assert forall i | 0 <= i < |nodes| :: nodes[i] in r.value;
    assert forall i | 0 <= i < |nodes| :: fresh(nodes[i]);
    ghost var rows := AccountNodes(d.db, q);
    var err;
    SourceOrderComplete();
    err, fp := LoadEdges(SOURCE_ORDER, d, q, nodes, rows);
    if err.Some? {
      return Err(err.value), fp;
    }
    AllLoaded(nodes, SOURCE_ORDER, d.db, q, fp);
    fp := fp + NodeSet(nodes);
  }

  ghost predicate GroupsDone(nodes: seq<AccountGroup>, db: Db, q: AccountGroupQuery, rows: seq<Row>, fp: set<object>)
    requires |nodes| == |rows|
    reads nodes, fp
  {
    forall i | 0 <= i < |nodes| ::
      && nodes[i].edges.loaded == GroupLoaded(q)
      && nodes[i].edges.group == GroupOf(db, q, rows, i)
      && LinkIs(nodes[i].edges.account, OwnerOf(db, q, rows, i), fp)
  }

  lemma AllGroupsLoaded(nodes: seq<AccountGroup>, db: Db, q: AccountGroupQuery, inner: set<object>)
    requires AreGroupNodes(nodes, AccountGroupNodes(db, q))
    requires GroupsDone(nodes, db, q, AccountGroupNodes(db, q), inner)
    ensures AreAccountGroups(nodes, BatchAccountGroups(db, q), inner + NodeSet(nodes))
  {
    var fp := inner + NodeSet(nodes);
    forall i | 0 <= i < |nodes|
      ensures IsAccountGroup(nodes[i], BatchAccountGroups(db, q)[i], fp)
    {
      BatchGroupAt(db, q, i);
      LinkGrows(nodes[i].edges.account, OwnerOf(db, q, AccountGroupNodes(db, q), i), inner, fp);
    }
  }

  /** `AccountGroupQuery.All`. */
  method AllAccountGroups(d: Driver, q: AccountGroupQuery) returns (r: Result<seq<AccountGroup>, LoadError>, ghost fp: set<object>)
    modifies d
    ensures fresh(fp)
    ensures old(d.issued) <= d.issued <= old(d.issued) + GroupSize(q)
    ensures r.Ok? ==> Quiet(d.faults, old(d.issued), d.issued)
    ensures r.Ok? ==> AreAccountGroups(r.value, BatchAccountGroups(d.db, q), fp)
    ensures r.Err? ==> Explained(r.error, ValidGroupQuery(d.db, q), d.faults, old(d.issued), d.issued)
    decreases GroupSize(q), 5
  {
    fp := {};
    r := ScanAccountGroups(d, q);
    if r.Err? || |r.value| == 0 {
      return;
    }
    var nodes := r.value;
    assert forall i | 0 <= i < |nodes| :: nodes[i] in r.value;
    assert forall i | 0 <= i < |nodes| :: fresh(nodes[i]);
    ghost var rows := AccountGroupNodes(d.db, q);
    var err;
    err, fp := LoadGroupEdges(d, q, nodes, rows);
    if err.Some? {
      return Err(err.value), fp;
    }
    AllGroupsLoaded(nodes, d.db, q, fp);
    fp := fp + NodeSet(nodes);
  }

  method LoadGroupEdges(d: Driver, q: AccountGroupQuery, nodes: seq<AccountGroup>, ghost rows: seq<Row>)
    returns (err: Option<LoadError>, ghost fp: set<object>)
    requires AreGroupNodes(nodes, rows)
    requires forall n | n in nodes :: n.edges == AccountGroupEdges(null, None, GroupLoaded(q))
    modifies d, nodes`edges
    ensures fresh(fp)
    ensures old(d.issued) <= d.issued < old(d.issued) + GroupSize(q)
    ensures err.None? ==> Quiet(d.faults, old(d.issued), d.issued)
    ensures AreGroupNodes(nodes, rows)
    ensures err.None? ==> GroupsDone(nodes, d.db, q, rows, fp)
    ensures err.Some? ==> Explained(err.value, ValidGroupQuery(d.db, q), d.faults, old(d.issued), d.issued)
    decreases GroupSize(q), 2
  {
    err, fp := None, {};
    if q.withAccount.Some? {
      err, fp := LoadAccount(d, q, nodes, rows);
      if err.Some? {
        return;
      }
    }
    if q.withGroup.Some? {
      err := LoadGroup(d, q, nodes, rows);
    }
  }

  // ---------------------------------------------------------- one account or an error

  datatype OneError = NotFound | NotSingular | Failed(error: LoadError)

  /** `First`: the first matching account, or not-found exactly when nothing matches. */
  method First(d: Driver, q: AccountQuery) returns (r: Result<Account, OneError>, ghost fp: set<object>)
    modifies d
    ensures fresh(fp)
    ensures var rows := Select(d.db.accounts, q.base.(limit := None));
            var one := q.(base := q.base.(limit := Some(1)));
            match r
            case Ok(n) => rows != [] && |BatchAccounts(d.db, one)| == 1 && IsAccount(n, BatchAccounts(d.db, one)[0], fp)
            case Err(NotFound) => rows == []
            case Err(NotSingular) => false
            case Err(Failed(e)) => Explained(e, ValidQuery(d.db, q), d.faults, old(d.issued), d.issued)
  {
    var one := q.(base := q.base.(limit := Some(1)));
    assert ValidQuery(d.db, one) <==> ValidQuery(d.db, q);
    var all;
    all, fp := AllAccounts(d, one);
    if all.Err? {
      return Err(Failed(all.error)), fp;
    }
    r := if |all.value| == 0 then Err(NotFound) else Ok(all.value[0]);
  }

  /** `Only`: the single matching account; no match and several matches are told apart by a limit of two. */
  method Only(d: Driver, q: AccountQuery) returns (r: Result<Account, OneError>, ghost fp: set<object>)
    modifies d
    ensures fresh(fp)
    ensures var rows := Select(d.db.accounts, q.base.(limit := None));
            var two := q.(base := q.base.(limit := Some(2)));
            match r
            case Ok(n) => |rows| == 1 && |BatchAccounts(d.db, two)| == 1 && IsAccount(n, BatchAccounts(d.db, two)[0], fp)
            case Err(NotFound) => rows == []
            case Err(NotSingular) => |rows| > 1
            case Err(Failed(e)) => Explained(e, ValidQuery(d.db, q), d.faults, old(d.issued), d.issued)
  {
    var two := q.(base := q.base.(limit := Some(2)));
    assert ValidQuery(d.db, two) <==> ValidQuery(d.db, q);
    var all;
    all, fp := AllAccounts(d, two);
    if all.Err? {
      return Err(Failed(all.error)), fp;
    }
    if |all.value| == 1 {
      r := Ok(all.value[0]);
    } else if |all.value| == 0 {
      r := Err(NotFound);
    } else {
      r := Err(NotSingular);
    }
  }
}
