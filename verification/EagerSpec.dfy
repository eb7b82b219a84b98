/** The two meanings of an eager-loading query: what the batched loader builds, and per-entity lookup. */
module EagerSpec {
  import opened Basics
  import opened EntSchema

  /** An account with its loaded edges, as a value. `loaded` is `loadedTypes` in declaration order. */
  datatype AccountTree = AccountTree(
    values: Row,
    loaded: seq<bool>,
    groups: seq<Row>,
    proxy: Option<Row>,
    parent: Option<AccountTree>,
    children: seq<AccountTree>,
    usageLogs: seq<Row>,
    accountGroups: seq<AccountGroupTree>)

  datatype AccountGroupTree = AccountGroupTree(
    values: Row,
    loaded: seq<bool>,
    account: Option<AccountTree>,
    group: Option<Row>)

  function Loaded(q: AccountQuery): seq<bool> {
    [q.withGroups.Some?, q.withProxy.Some?, q.withParent.Some?,
     q.withChildren.Some?, q.withUsageLogs.Some?, q.withAccountGroups.Some?]
  }

  function GroupLoaded(q: AccountGroupQuery): seq<bool> {
    [q.withAccount.Some?, q.withGroup.Some?]
  }

  function AccountKeys(ts: seq<AccountTree>, c: Column): seq<Option<int>> {
    seq(|ts|, i requires 0 <= i < |ts| => IntAt(ts[i].values, c))
  }

  function AccountGroupKeys(ts: seq<AccountGroupTree>, c: Column): seq<Option<int>> {
    seq(|ts|, i requires 0 <= i < |ts| => IntAt(ts[i].values, c))
  }

  /** `nodeids[node.ID] = node` in a loop keeps the last node of an ID. */
  predicate HoldsId(nodes: seq<Row>, i: nat)
    requires i < |nodes|
  {
    forall j | i < j < |nodes| :: Key(nodes[j], ID) != Key(nodes[i], ID)
  }

  // ------------------------------------------------------------ sub-queries

  function ParentsQuery(q: AccountQuery, keys: set<int>): (p: AccountQuery)
    requires q.withParent.Some?
    ensures Size(p) < Size(q)
  {
    var p := q.withParent.value;
    p.(base := Narrow(p.base, ID, keys))
  }

  function ChildrenQuery(q: AccountQuery, keys: set<int>): (p: AccountQuery)
    requires q.withChildren.Some?
    ensures Size(p) < Size(q)
  {
    var p := q.withChildren.value;
    p.(base := Narrow(ForceColumn(p.base, ParentAccountID), ParentAccountID, keys))
  }

  function AccountGroupsQuery(q: AccountQuery, keys: set<int>): (p: AccountGroupQuery)
    requires q.withAccountGroups.Some?
    ensures GroupSize(p) < Size(q)
  {
    var p := q.withAccountGroups.value;
    p.(base := Narrow(ForceColumn(p.base, AccountID), AccountID, keys))
  }

  function AccountsQuery(q: AccountGroupQuery, keys: set<int>): (p: AccountQuery)
    requires q.withAccount.Some?
    ensures Size(p) < GroupSize(q)
  {
    var p := q.withAccount.value;
    p.(base := Narrow(p.base, ID, keys))
  }

  // -------------------------------------------------------- batched loading

  /** The scanned rows, before any edge is loaded. */
  function AccountNodes(db: Db, q: AccountQuery): seq<Row> {
    ProjectAll(Select(db.accounts, q.base), AccountColumns(db, q))
  }

  function AccountGroupNodes(db: Db, q: AccountGroupQuery): seq<Row> {
    ProjectAll(Select(db.accountGroups, q.base), AccountGroupColumns(q))
  }

  /** The joined rows that the batched groups query returns. */
  function JoinRows(db: Db, base: Base, nodes: seq<Row>): seq<(Row, Row)> {
    Window(base, ScanJoin(db.joinScan, base.preds, PlainKeySet(nodes, ID)))
  }

  predicate SeenUpTo(js: seq<(Row, Row)>, n: nat, id: int)
    requires n <= |js|
  {
    exists j | 0 <= j < n :: Key(js[j].1, ID) == id
  }

  /** The groups of the joined rows, each once, at its first appearance. */
  function FirstAppearances(js: seq<(Row, Row)>, n: nat): seq<Row>
    requires n <= |js|
  {
    if n == 0 then []
    else
      var rest := FirstAppearances(js, n - 1);
      if SeenUpTo(js, n - 1, Key(js[n - 1].1, ID)) then rest else rest + [js[n - 1].1]
  }

  /** Some joined row links account `k` to group `g`. */
  predicate LinkedUpTo(js: seq<(Row, Row)>, n: nat, k: int, g: int)
    requires n <= |js|
  {
    exists j | 0 <= j < n :: Key(js[j].0, AccountID) == k && Key(js[j].1, ID) == g
  }

  function LinkedGroups(js: seq<(Row, Row)>, groups: seq<Row>, n: nat, k: int): seq<Row>
    requires n <= |groups|
  {
    if n == 0 then []
    else
      var rest := LinkedGroups(js, groups, n - 1, k);
      if LinkedUpTo(js, |js|, k, Key(groups[n - 1], ID)) then rest + [groups[n - 1]] else rest
  }

  function GroupsOf(db: Db, q: AccountQuery, nodes: seq<Row>, i: nat): seq<Row>
    requires i < |nodes|
  {
    if q.withGroups.None? || !HoldsId(nodes, i) then []
    else
      var js := JoinRows(db, q.withGroups.value, nodes);
      var groups := ProjectAll(FirstAppearances(js, |js|), ColumnsWithId(GroupTable(db), q.withGroups.value));
      LinkedGroups(js, groups, |groups|, Key(nodes[i], ID))
  }

  function FoundProxies(db: Db, q: AccountQuery, nodes: seq<Row>): seq<Row>
    requires q.withProxy.Some?
  {
    Leaves(db.proxies, ProxyTable(db), Narrow(q.withProxy.value, ID, KeySet(nodes, ProxyID)))
  }

  function ProxyOf(db: Db, q: AccountQuery, nodes: seq<Row>, i: nat): Option<Row>
    requires i < |nodes|
  {
    if q.withProxy.None? then None
    else
      var found := FoundProxies(db, q, nodes);
      Latest(found, Keys(found, ID), IntAt(nodes[i], ProxyID))
  }

  function FoundUsageLogs(db: Db, q: AccountQuery, nodes: seq<Row>): seq<Row>
    requires q.withUsageLogs.Some?
  {
    Leaves(db.usageLogs, UsageLogTable(db),
           Narrow(ForceColumn(q.withUsageLogs.value, AccountID), AccountID, PlainKeySet(nodes, ID)))
  }

  function UsageLogsOf(db: Db, q: AccountQuery, nodes: seq<Row>, i: nat): seq<Row>
    requires i < |nodes|
  {
    if q.withUsageLogs.None? || !HoldsId(nodes, i) then []
    else
      var found := FoundUsageLogs(db, q, nodes);
      Owned(found, Keys(found, AccountID), Key(nodes[i], ID))
  }

  function ParentOf(db: Db, q: AccountQuery, nodes: seq<Row>, i: nat): Option<AccountTree>
    requires i < |nodes|
    decreases Size(q), 0
  {
    if q.withParent.None? then None
    else
      var found := BatchAccounts(db, ParentsQuery(q, KeySet(nodes, ParentAccountID)));
      Latest(found, AccountKeys(found, ID), IntAt(nodes[i], ParentAccountID))
  }

  function ChildrenOf(db: Db, q: AccountQuery, nodes: seq<Row>, i: nat): seq<AccountTree>
    requires i < |nodes|
    decreases Size(q), 0
  {
    if q.withChildren.None? || !HoldsId(nodes, i) then []
    else
      var found := BatchAccounts(db, ChildrenQuery(q, PlainKeySet(nodes, ID)));
      Owned(found, AccountKeys(found, ParentAccountID), Key(nodes[i], ID))
  }

  function AccountGroupsOf(db: Db, q: AccountQuery, nodes: seq<Row>, i: nat): seq<AccountGroupTree>
    requires i < |nodes|
    decreases Size(q), 0
  {
    if q.withAccountGroups.None? || !HoldsId(nodes, i) then []
    else
      var found := BatchAccountGroups(db, AccountGroupsQuery(q, PlainKeySet(nodes, ID)));
      Owned(found, AccountGroupKeys(found, AccountID), Key(nodes[i], ID))
  }

  /** The account at position `i` once all six edges are loaded. */
  function LoadedAccount(db: Db, q: AccountQuery, nodes: seq<Row>, i: nat): AccountTree
    requires i < |nodes|
    decreases Size(q), 1
  {
    AccountTree(nodes[i], Loaded(q), GroupsOf(db, q, nodes, i), ProxyOf(db, q, nodes, i),
                ParentOf(db, q, nodes, i), ChildrenOf(db, q, nodes, i),
                UsageLogsOf(db, q, nodes, i), AccountGroupsOf(db, q, nodes, i))
  }

  function BatchAccounts(db: Db, q: AccountQuery): (ts: seq<AccountTree>)
    ensures |ts| == |AccountNodes(db, q)|
    decreases Size(q), 2
  {
    var nodes := AccountNodes(db, q);
    seq(|nodes|, i requires 0 <= i < |nodes| => LoadedAccount(db, q, nodes, i))
  }

  function OwnerOf(db: Db, q: AccountGroupQuery, nodes: seq<Row>, i: nat): Option<AccountTree>
    requires i < |nodes|
    decreases GroupSize(q), 0
  {
    if q.withAccount.None? then None
    else
      var found := BatchAccounts(db, AccountsQuery(q, PlainKeySet(nodes, AccountID)));
      Latest(found, AccountKeys(found, ID), Some(Key(nodes[i], AccountID)))
  }

  function FoundGroups(db: Db, q: AccountGroupQuery, nodes: seq<Row>): seq<Row>
    requires q.withGroup.Some?
  {
    Leaves(db.groups, GroupTable(db), Narrow(q.withGroup.value, ID, PlainKeySet(nodes, GroupID)))
  }

  function GroupOf(db: Db, q: AccountGroupQuery, nodes: seq<Row>, i: nat): Option<Row>
    requires i < |nodes|
  {
    if q.withGroup.None? then None
    else
      var found := FoundGroups(db, q, nodes);
      Latest(found, Keys(found, ID), Some(Key(nodes[i], GroupID)))
  }

  function LoadedAccountGroup(db: Db, q: AccountGroupQuery, nodes: seq<Row>, i: nat): AccountGroupTree
    requires i < |nodes|
    decreases GroupSize(q), 1
  {
    AccountGroupTree(nodes[i], GroupLoaded(q), OwnerOf(db, q, nodes, i), GroupOf(db, q, nodes, i))
  }

  function BatchAccountGroups(db: Db, q: AccountGroupQuery): (ts: seq<AccountGroupTree>)
    ensures |ts| == |AccountGroupNodes(db, q)|
    decreases GroupSize(q), 2
  {
    var nodes := AccountGroupNodes(db, q);
    seq(|nodes|, i requires 0 <= i < |nodes| => LoadedAccountGroup(db, q, nodes, i))
  }

  // ------------------------------------------------------ per-entity lookup

  predicate LinkedTo(links: seq<Row>, k: int, group: Row) {
    exists l | l in links :: IntAt(l, AccountID) == Some(k) && JoinsOn(l, group)
  }

  function LinkPredicate(db: Db, k: int): Predicate {
    Custom(g => LinkedTo(db.accountGroups, k, g))
  }

  /** The groups of one account: those an account_groups row links it to. */
  function LookUpGroups(db: Db, base: Base, k: int): seq<Row> {
    Leaves(db.groups, GroupTable(db), base.(preds := base.preds + [LinkPredicate(db, k)]))
  }

  function LookUpLeaf(rows: seq<Row>, table: seq<Column>, base: Base, fk: Option<int>): Option<Row> {
    if fk.None? then None else LastOf(Leaves(rows, table, Narrow(base, ID, {fk.value})))
  }

  function LookUpParent(db: Db, q: AccountQuery, fk: Option<int>): Option<AccountTree>
    requires q.withParent.Some?
    decreases Size(q), 0
  {
    if fk.None? then None
    else
      LastOf(NaiveAccounts(db, ParentsQuery(q, {fk.value})))
  }

  /** One account looked up on its own: every edge by its own query on the full row. */
  function NaiveAccount(db: Db, q: AccountQuery, row: Row): AccountTree
    decreases Size(q), 1
  {
    var id := Key(row, ID);
    AccountTree(
      Project(row, AccountColumns(db, q)),
      Loaded(q),
      if q.withGroups.None? then [] else LookUpGroups(db, q.withGroups.value, id),
      if q.withProxy.None? then None
      else LookUpLeaf(db.proxies, ProxyTable(db), q.withProxy.value, IntAt(row, ProxyID)),
      if q.withParent.None? then None else LookUpParent(db, q, IntAt(row, ParentAccountID)),
      if q.withChildren.None? then [] else NaiveAccounts(db, ChildrenQuery(q, {id})),
      if q.withUsageLogs.None? then []
      else Leaves(db.usageLogs, UsageLogTable(db),
                  Narrow(ForceColumn(q.withUsageLogs.value, AccountID), AccountID, {id})),
      if q.withAccountGroups.None? then [] else NaiveAccountGroups(db, AccountGroupsQuery(q, {id})))
  }

  function NaiveAccounts(db: Db, q: AccountQuery): (ts: seq<AccountTree>)
    ensures |ts| == |Select(db.accounts, q.base)|
    decreases Size(q), 2
  {
    var rows := Select(db.accounts, q.base);
    seq(|rows|, i requires 0 <= i < |rows| => NaiveAccount(db, q, rows[i]))
  }

  function NaiveAccountGroup(db: Db, q: AccountGroupQuery, row: Row): AccountGroupTree
    decreases GroupSize(q), 1
  {
    AccountGroupTree(
      Project(row, AccountGroupColumns(q)),
      GroupLoaded(q),
      if q.withAccount.None? then None else LastOf(NaiveAccounts(db, AccountsQuery(q, {Key(row, AccountID)}))),
      if q.withGroup.None? then None
      else LookUpLeaf(db.groups, GroupTable(db), q.withGroup.value, Some(Key(row, GroupID))))
  }

  function NaiveAccountGroups(db: Db, q: AccountGroupQuery): (ts: seq<AccountGroupTree>)
    ensures |ts| == |Select(db.accountGroups, q.base)|
    decreases GroupSize(q), 2
  {
    var rows := Select(db.accountGroups, q.base);
    seq(|rows|, i requires 0 <= i < |rows| => NaiveAccountGroup(db, q, rows[i]))
  }

  // -------------------------------------------------------------- agreement

  /** Two accounts agree when they carry the same values and the same edges; only the order of groups may differ. */
  ghost predicate Same(s: AccountTree, t: AccountTree)
    decreases s
  {
    && s.values == t.values && s.loaded == t.loaded
    && multiset(s.groups) == multiset(t.groups)
    && s.proxy == t.proxy
    && SameOption(s.parent, t.parent)
    && SameAccounts(s.children, t.children)
    && s.usageLogs == t.usageLogs
    && |s.accountGroups| == |t.accountGroups|
    && (forall i | 0 <= i < |s.accountGroups| :: SameAccountGroup(s.accountGroups[i], t.accountGroups[i]))
  }

  ghost predicate SameOption(s: Option<AccountTree>, t: Option<AccountTree>)
    decreases s
  {
    match (s, t)
    case (None, None) => true
    case (Some(a), Some(b)) => Same(a, b)
    case (_, _) => false
  }

  ghost predicate SameAccounts(ss: seq<AccountTree>, ts: seq<AccountTree>)
    decreases ss
  {
    |ss| == |ts| && forall i | 0 <= i < |ss| :: Same(ss[i], ts[i])
  }

  ghost predicate SameAccountGroup(s: AccountGroupTree, t: AccountGroupTree)
    decreases s
  {
    s.values == t.values && s.loaded == t.loaded && s.group == t.group && SameOption(s.account, t.account)
  }
}
