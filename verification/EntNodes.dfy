/** Node objects, the driver that fills them, and what it means for objects to stand for a loaded tree. */
module EntNodes {
  import opened Basics
  import opened EntSchema
  import opened EagerSpec

  datatype Edge = Groups | Proxy | Parent | Children | UsageLogs | AccountGroups

  datatype LoadError =
    | InvalidField(column: Column)
    | DriverFault
    | UnexpectedKey(key: int)
    | NilForeignKey

  // -------------------------------------------------------------- the driver

  function Fetch(r: Row, columns: seq<Column>): seq<Cell> {
    seq(|columns|, i requires 0 <= i < |columns| => At(r, columns[i]))
  }

  /** A database connection. `faults` numbers the queries that the database fails. */
  class Driver {
    const db: Db
    const faults: set<nat>
    var issued: nat

    constructor (db: Db, faults: set<nat>)
      ensures this.db == db && this.faults == faults && issued == 0
    {
      this.db, this.faults, issued := db, faults, 0;
    }

    method QueryNodes(rows: seq<Row>, base: Base, columns: seq<Column>)
      returns (r: Result<seq<seq<Cell>>, LoadError>)
      modifies this
      ensures issued == old(issued) + 1
      ensures r.Err? <==> old(issued) in faults
      ensures r.Err? ==> r.error == DriverFault
      ensures r.Ok? ==>
                var found := Select(rows, base);
                |r.value| == |found| && forall i | 0 <= i < |found| :: r.value[i] == Fetch(found[i], columns)
    {
      issued := issued + 1;
      if issued - 1 in faults {
        return Err(DriverFault);
      }
      var found := Select(rows, base);
      r := Ok(seq(|found|, i requires 0 <= i < |found| => Fetch(found[i], columns)));
    }

    /** The groups query after the join was added: the account ID is the first column of every row. */
    method QueryJoin(base: Base, columns: seq<Column>, accounts: set<int>)
      returns (r: Result<seq<seq<Cell>>, LoadError>)
      modifies this
      ensures issued == old(issued) + 1
      ensures r.Err? <==> old(issued) in faults
      ensures r.Err? ==> r.error == DriverFault
      ensures r.Ok? ==>
                var js := Window(base, ScanJoin(db.joinScan, base.preds, accounts));
                && |r.value| == |js|
                && forall i | 0 <= i < |js| :: r.value[i] == [At(js[i].0, AccountID)] + Fetch(js[i].1, columns)
    {
      issued := issued + 1;
      if issued - 1 in faults {
        return Err(DriverFault);
      }
      var js := Window(base, ScanJoin(db.joinScan, base.preds, accounts));
      r := Ok(seq(|js|, i requires 0 <= i < |js| => [At(js[i].0, AccountID)] + Fetch(js[i].1, columns)));
    }
  }

  ghost predicate Quiet(faults: set<nat>, from: nat, to: nat) {
    forall k | from <= k < to :: k !in faults
  }

  /** An error is a failed query among those issued, or a selected field that is no column, never an unexpected row. */
  ghost predicate Explained(e: LoadError, valid: bool, faults: set<nat>, from: nat, to: nat) {
    match e
    case DriverFault => !Quiet(faults, from, to)
    case InvalidField(_) => !valid
    case _ => false
  }

  predicate ValidFields(fields: seq<Column>, table: seq<Column>) {
    forall c | c in fields :: c in table
  }

  predicate ValidLeaf(q: Option<LeafQuery>, table: seq<Column>) {
    q.Some? ==> ValidFields(q.value.fields, table)
  }

  /** Every selected field, at every level of the query, is a column of its table. */
  predicate ValidQuery(db: Db, q: AccountQuery)
    decreases q
  {
    && ValidFields(q.base.fields, AccountTable(db))
    && ValidLeaf(q.withGroups, GroupTable(db))
    && ValidLeaf(q.withProxy, ProxyTable(db))
    && ValidLeaf(q.withUsageLogs, UsageLogTable(db))
    && (match q.withParent case None => true case Some(p) => ValidQuery(db, p))
    && (match q.withChildren case None => true case Some(p) => ValidQuery(db, p))
    && (match q.withAccountGroups case None => true case Some(p) => ValidGroupQuery(db, p))
  }

  predicate ValidGroupQuery(db: Db, q: AccountGroupQuery)
    decreases q
  {
    && ValidFields(q.base.fields, ACCOUNT_GROUP_TABLE)
    && ValidLeaf(q.withGroup, GroupTable(db))
    && (match q.withAccount case None => true case Some(p) => ValidQuery(db, p))
  }

  /** The field check of `prepareQuery`. */
  method PrepareQuery(fields: seq<Column>, table: seq<Column>) returns (bad: Option<LoadError>)
    ensures bad.None? <==> ValidFields(fields, table)
    ensures bad.Some? ==> exists i | 0 <= i < |fields| ::
              bad.value == InvalidField(fields[i]) && fields[i] !in table && forall j | 0 <= j < i :: fields[j] in table
  {
    for i := 0 to |fields|
      invariant forall j | 0 <= j < i :: fields[j] in table
    {
      if fields[i] !in table {
        return Some(InvalidField(fields[i]));
      }
    }
    return None;
  }

  // --------------------------------------------------------------- the nodes

  datatype AccountEdges = AccountEdges(
    groups: seq<Row>,
    proxy: Option<Row>,
    parent: Account?,
    children: seq<Account>,
    usageLogs: seq<Row>,
    accountGroups: seq<AccountGroup>,
    loaded: seq<bool>)

  datatype AccountGroupEdges = AccountGroupEdges(account: Account?, group: Option<Row>, loaded: seq<bool>)

  lemma ProjectStep(row: Row, columns: seq<Column>, i: nat)
    requires i < |columns|
    ensures Project(row, columns[..i + 1]) == Project(row, columns[..i])[columns[i] := At(row, columns[i])]
  {
    assert columns[..i + 1] == columns[..i] + [columns[i]];
  }

  lemma ProjectedCell(row: Row, columns: seq<Column>, c: Column)
    ensures IntAt(Project(row, columns), c) == if c in columns then IntAt(row, c) else None
    ensures Key(Project(row, columns), c) == if c in columns then Key(row, c) else 0
  {
  }

  class Account {
    var id: int
    var proxyID: Option<int>
    var parentAccountID: Option<int>
    var values: Row
    var edges: AccountEdges

    constructor (loaded: seq<bool>)
      ensures id == 0 && proxyID == None && parentAccountID == None && values == map[]
      ensures edges == AccountEdges([], None, null, [], [], [], loaded)
    {
      id, proxyID, parentAccountID, values := 0, None, None, map[];
      edges := AccountEdges([], None, null, [], [], [], loaded);
    }

    ghost predicate Scanned(row: Row)
      reads `id, `proxyID, `parentAccountID, `values
    {
      && values == row && id == Key(row, ID)
      && proxyID == IntAt(row, ProxyID) && parentAccountID == IntAt(row, ParentAccountID)
    }

    /** `assignValues`: the cells of `row` for `columns`, column by column. */
    method AssignValues(columns: seq<Column>, cells: seq<Cell>, ghost row: Row) returns (ok: bool)
      requires Scanned(map[])
      requires forall i | 0 <= i < |columns| && i < |cells| :: cells[i] == At(row, columns[i])
      modifies this`id, this`proxyID, this`parentAccountID, this`values
      ensures ok <==> |columns| <= |cells|
      ensures Scanned(if ok then Project(row, columns) else map[])
    {
      if |cells| < |columns| {
        return false;
      }
      for i := 0 to |columns|
        invariant values == Project(row, columns[..i])
        invariant id == if ID in columns[..i] then Key(row, ID) else 0
        invariant proxyID == if ProxyID in columns[..i] then IntAt(row, ProxyID) else None
        invariant parentAccountID == if ParentAccountID in columns[..i] then IntAt(row, ParentAccountID) else None
      {
        match columns[i] {
          case ID => id := if cells[i].Int? then cells[i].value else 0;
          case ProxyID => if cells[i].Int? { proxyID := Some(cells[i].value); }
          case ParentAccountID => if cells[i].Int? { parentAccountID := Some(cells[i].value); }
          case _ =>
        }
        values := values[columns[i] := cells[i]];
        ProjectStep(row, columns, i);
      }
      assert columns[..|columns|] == columns;
      ProjectedCell(row, columns, ID);
      ProjectedCell(row, columns, ProxyID);
      ProjectedCell(row, columns, ParentAccountID);
      return true;
    }
  }

  class AccountGroup {
    var accountID: int
    var groupID: int
    var values: Row
    var edges: AccountGroupEdges

    constructor (loaded: seq<bool>)
      ensures accountID == 0 && groupID == 0 && values == map[]
      ensures edges == AccountGroupEdges(null, None, loaded)
    {
      accountID, groupID, values, edges := 0, 0, map[], AccountGroupEdges(null, None, loaded);
    }

    ghost predicate Scanned(row: Row)
      reads `accountID, `groupID, `values
    {
      values == row && accountID == Key(row, AccountID) && groupID == Key(row, GroupID)
    }

    method AssignValues(columns: seq<Column>, cells: seq<Cell>, ghost row: Row) returns (ok: bool)
      requires Scanned(map[])
      requires forall i | 0 <= i < |columns| && i < |cells| :: cells[i] == At(row, columns[i])
      modifies this`accountID, this`groupID, this`values
      ensures ok <==> |columns| <= |cells|
      ensures Scanned(if ok then Project(row, columns) else map[])
    {
      if |cells| < |columns| {
        return false;
      }
      for i := 0 to |columns|
        invariant values == Project(row, columns[..i])
        invariant accountID == if AccountID in columns[..i] then Key(row, AccountID) else 0
        invariant groupID == if GroupID in columns[..i] then Key(row, GroupID) else 0
      {
        match columns[i] {
          case AccountID => if cells[i].Int? { accountID := cells[i].value; }
          case GroupID => if cells[i].Int? { groupID := cells[i].value; }
          case _ =>
        }
        values := values[columns[i] := cells[i]];
        ProjectStep(row, columns, i);
      }
      assert columns[..|columns|] == columns;
      ProjectedCell(row, columns, AccountID);
      ProjectedCell(row, columns, GroupID);
      return true;
    }
  }

  // ---------------------------------------------------- objects against values

  /** Object `n` and everything it reaches, all inside `fp`, is the tree `t`. */
  ghost predicate IsAccount(n: Account, t: AccountTree, fp: set<object>)
    reads fp
    decreases t, 1
  {
    n in fp && n.Scanned(t.values) && n.edges.loaded == t.loaded && forall e: Edge :: EdgeIs(e, n.edges, t, fp)
  }

  ghost predicate EdgeIs(e: Edge, es: AccountEdges, t: AccountTree, fp: set<object>)
    reads fp
    decreases t, 0
  {
    match e
    case Groups => es.groups == t.groups
    case Proxy => es.proxy == t.proxy
    case Parent => LinkIs(es.parent, t.parent, fp)
    case Children => AreAccounts(es.children, t.children, fp)
    case UsageLogs => es.usageLogs == t.usageLogs
    case AccountGroups => AreAccountGroups(es.accountGroups, t.accountGroups, fp)
  }

  ghost predicate LinkIs(p: Account?, t: Option<AccountTree>, fp: set<object>)
    reads fp
    decreases t, 2
  {
    match t
    case None => p == null
    case Some(u) => p != null && IsAccount(p, u, fp)
  }

  ghost predicate AreAccounts(ns: seq<Account>, ts: seq<AccountTree>, fp: set<object>)
    reads fp
    decreases ts, 2
  {
    |ns| == |ts| && forall i | 0 <= i < |ts| :: IsAccount(ns[i], ts[i], fp)
  }

  ghost predicate AreAccountGroups(ns: seq<AccountGroup>, ts: seq<AccountGroupTree>, fp: set<object>)
    reads fp
    decreases ts, 2
  {
    |ns| == |ts| && forall i | 0 <= i < |ts| :: IsAccountGroup(ns[i], ts[i], fp)
  }

  ghost predicate IsAccountGroup(n: AccountGroup, t: AccountGroupTree, fp: set<object>)
    reads fp
    decreases t, 1
  {
    n in fp && n.Scanned(t.values) && n.edges.loaded == t.loaded
    && n.edges.group == t.group && LinkIs(n.edges.account, t.account, fp)
  }

  lemma {:induction false} AccountGrows(n: Account, t: AccountTree, fp: set<object>, more: set<object>)
    requires fp <= more && IsAccount(n, t, fp)
    ensures IsAccount(n, t, more)
    decreases t, 1
  {
    forall e: Edge ensures EdgeIs(e, n.edges, t, more) {
      EdgeGrows(e, n.edges, t, fp, more);
    }
  }

  lemma {:induction false} EdgeGrows(e: Edge, es: AccountEdges, t: AccountTree, fp: set<object>, more: set<object>)
    requires fp <= more && EdgeIs(e, es, t, fp)
    ensures EdgeIs(e, es, t, more)
    decreases t, 0
  {
    match e
    case Parent => LinkGrows(es.parent, t.parent, fp, more);
    case Children =>
      forall i | 0 <= i < |t.children| ensures IsAccount(es.children[i], t.children[i], more) {
        AccountGrows(es.children[i], t.children[i], fp, more);
      }
    case AccountGroups =>
      forall i | 0 <= i < |t.accountGroups| ensures IsAccountGroup(es.accountGroups[i], t.accountGroups[i], more) {
        AccountGroupGrows(es.accountGroups[i], t.accountGroups[i], fp, more);
      }
    case _ =>
  }

  lemma {:induction false} LinkGrows(p: Account?, t: Option<AccountTree>, fp: set<object>, more: set<object>)
    requires fp <= more && LinkIs(p, t, fp)
    ensures LinkIs(p, t, more)
    decreases t, 2
  {
    if t.Some? {
      AccountGrows(p, t.value, fp, more);
    }
  }

  lemma {:induction false} AccountGroupGrows(n: AccountGroup, t: AccountGroupTree, fp: set<object>, more: set<object>)
    requires fp <= more && IsAccountGroup(n, t, fp)
    ensures IsAccountGroup(n, t, more)
    decreases t, 1
  {
    LinkGrows(n.edges.account, t.account, fp, more);
  }

  /** Nodes picked by key stand for the trees picked by the same key. */
  lemma OwnedAccounts(ns: seq<Account>, ts: seq<AccountTree>, keys: seq<Option<int>>, k: int, fp: set<object>)
    requires AreAccounts(ns, ts, fp) && |keys| == |ts|
    ensures AreAccounts(Owned(ns, keys, k), Owned(ts, keys, k), fp)
  {
    OwnedPositions(ns, ts, keys, |ns|, k);
  }

  lemma OwnedAccountGroups(ns: seq<AccountGroup>, ts: seq<AccountGroupTree>, keys: seq<Option<int>>, k: int, fp: set<object>)
    requires AreAccountGroups(ns, ts, fp) && |keys| == |ts|
    ensures AreAccountGroups(Owned(ns, keys, k), Owned(ts, keys, k), fp)
  {
    OwnedPositions(ns, ts, keys, |ns|, k);
  }

  function Pointer(o: Option<Account>): Account? {
    if o.Some? then o.value else null
  }

  lemma {:induction false} LatestAccounts(ns: seq<Account>, ts: seq<AccountTree>, keys: seq<Option<int>>, n: nat,
                                          k: Option<int>, fp: set<object>)
    requires AreAccounts(ns, ts, fp) && n <= |keys| == |ts|
    ensures LinkIs(Pointer(LatestUpTo(ns, keys, n, k, None)), LatestUpTo(ts, keys, n, k, None), fp)
  {
    if n > 0 {
      LatestAccounts(ns, ts, keys, n - 1, k, fp);
    }
  }
}