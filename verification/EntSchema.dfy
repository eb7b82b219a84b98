/** Tables, rows, queries and column selection, as the generated query builders see them. */
module EntSchema {
  import opened Basics

  /** The columns that loading reads by name; every other column is `Other`. */
  datatype Column = ID | ProxyID | ParentAccountID | AccountID | GroupID | Other(name: string)

  datatype Cell = Null | Int(value: int) | Data(text: string)

  type Row = map<Column, Cell>

  function At(r: Row, c: Column): Cell {
    if c in r then r[c] else Null
  }

  /** A nullable integer column, scanned into a pointer field. */
  function IntAt(r: Row, c: Column): Option<int> {
    if At(r, c).Int? then Some(At(r, c).value) else None
  }

  /** A plain integer column, scanned into an `int64` field: NULL or unselected is zero. */
  function Key(r: Row, c: Column): int {
    if At(r, c).Int? then At(r, c).value else 0
  }

  function Project(r: Row, columns: seq<Column>): Row {
    map c | c in columns :: At(r, c)
  }

  function ProjectAll(rows: seq<Row>, columns: seq<Column>): seq<Row> {
    seq(|rows|, i requires 0 <= i < |rows| => Project(rows[i], columns))
  }

  function Keys(rows: seq<Row>, c: Column): seq<Option<int>> {
    seq(|rows|, i requires 0 <= i < |rows| => IntAt(rows[i], c))
  }

  /** The values of a plain integer column. */
  function PlainKeys(rows: seq<Row>, c: Column): seq<Option<int>> {
    seq(|rows|, i requires 0 <= i < |rows| => Some(Key(rows[i], c)))
  }

  /** The distinct non-NULL values of a nullable column. */
  function KeySet(rows: seq<Row>, c: Column): set<int> {
    set r | r in rows && IntAt(r, c).Some? :: IntAt(r, c).value
  }

  /** The distinct values of a plain integer column. */
  function PlainKeySet(rows: seq<Row>, c: Column): set<int> {
    set r | r in rows :: Key(r, c)
  }

  // ---------------------------------------------------------------- queries

  /** A caller's own predicate, or the `IN (...)` predicate that loading an edge appends. */
  datatype Predicate = Custom(test: Row -> bool) | In(column: Column, keys: set<int>)

  predicate Satisfies(p: Predicate, r: Row) {
    match p
    case Custom(test) => test(r)
    case In(column, keys) => IntAt(r, column).Some? && IntAt(r, column).value in keys
  }

  predicate Holds(preds: seq<Predicate>, r: Row) {
    forall i | 0 <= i < |preds| :: Satisfies(preds[i], r)
  }

  type pos = n: nat | n > 0 witness 1

  /** What every query builder carries: selected fields, predicates, offset and limit. */
  datatype Base = Base(fields: seq<Column>, preds: seq<Predicate>, offset: nat, limit: Option<pos>)

  type LeafQuery = Base

  datatype AccountQuery = AccountQuery(
    base: Base,
    withGroups: Option<LeafQuery>,
    withProxy: Option<LeafQuery>,
    withParent: Option<AccountQuery>,
    withChildren: Option<AccountQuery>,
    withUsageLogs: Option<LeafQuery>,
    withAccountGroups: Option<AccountGroupQuery>)

  datatype AccountGroupQuery = AccountGroupQuery(
    base: Base,
    withAccount: Option<AccountQuery>,
    withGroup: Option<LeafQuery>)

  function OneIf<T>(o: Option<T>): nat {
    if o.Some? then 1 else 0
  }

  /** The number of nodes in the tree of `With*` sub-queries, the root included. */
  function Size(q: AccountQuery): nat
    decreases q
  {
    1 + OneIf(q.withGroups) + OneIf(q.withProxy)
    + (match q.withParent case None => 0 case Some(p) => Size(p))
    + (match q.withChildren case None => 0 case Some(p) => Size(p))
    + OneIf(q.withUsageLogs)
    + (match q.withAccountGroups case None => 0 case Some(p) => GroupSize(p))
  }

  function GroupSize(q: AccountGroupQuery): nat
    decreases q
  {
    1 + (match q.withAccount case None => 0 case Some(p) => Size(p)) + OneIf(q.withGroup)
  }

  /** `query.Where(...IN keys)`. */
  function Narrow(base: Base, column: Column, keys: set<int>): Base {
    base.(preds := base.preds + [In(column, keys)])
  }

  /** `AppendFieldOnce`, which loading applies only when a selection is present. */
  function ForceColumn(base: Base, c: Column): Base {
    if |base.fields| > 0 && c !in base.fields then base.(fields := base.fields + [c]) else base
  }

  // ------------------------------------------------------ selected columns

  function Without(fields: seq<Column>, c: Column): (r: seq<Column>)
    ensures forall d :: d in r <==> d in fields && d != c
  {
    if fields == [] then []
    else
      var rest := Without(fields[..|fields| - 1], c);
      if fields[|fields| - 1] == c then rest else rest + [fields[|fields| - 1]]
  }

  function AddOnce(columns: seq<Column>, c: Column): seq<Column> {
    if c in columns then columns else columns + [c]
  }

  function AddOnceIf(condition: bool, columns: seq<Column>, c: Column): seq<Column> {
    if condition then AddOnce(columns, c) else columns
  }

  /** Column lists of a builder whose entity has an ID field: all table columns, or the ID and the selection. */
  function ColumnsWithId(table: seq<Column>, base: Base): seq<Column> {
    if base.fields == [] then table else [ID] + Without(base.fields, ID)
  }

  // ---------------------------------------------------------------- database

  /** `joinScan` is the order in which the database enumerates account_groups JOIN groups; rows may repeat. */
  datatype Db = Db(
    accounts: seq<Row>,
    accountGroups: seq<Row>,
    groups: seq<Row>,
    proxies: seq<Row>,
    usageLogs: seq<Row>,
    joinScan: seq<(Row, Row)>,
    accountFields: seq<Column>,
    groupFields: seq<Column>,
    proxyFields: seq<Column>,
    usageLogFields: seq<Column>)

  function AccountTable(db: Db): seq<Column> { [ID, ProxyID, ParentAccountID] + db.accountFields }
  function GroupTable(db: Db): seq<Column> { [ID] + db.groupFields }
  function ProxyTable(db: Db): seq<Column> { [ID] + db.proxyFields }
  function UsageLogTable(db: Db): seq<Column> { [ID, AccountID] + db.usageLogFields }

  const ACCOUNT_GROUP_TABLE: seq<Column> := [AccountID, GroupID, Other("priority"), Other("created_at")]

  function AccountColumns(db: Db, q: AccountQuery): seq<Column> {
    if q.base.fields == [] then AccountTable(db)
    else AddOnceIf(q.withParent.Some?,
                   AddOnceIf(q.withProxy.Some?, ColumnsWithId(AccountTable(db), q.base), ProxyID),
                   ParentAccountID)
  }

  function AccountGroupColumns(q: AccountGroupQuery): seq<Column> {
    if q.base.fields == [] then ACCOUNT_GROUP_TABLE
    else AddOnceIf(q.withGroup.Some?, AddOnceIf(q.withAccount.Some?, q.base.fields, AccountID), GroupID)
  }

  // ---------------------------------------------------------- driver contract

  /** The rows that satisfy every predicate, in scan order. */
  function Scan(rows: seq<Row>, preds: seq<Predicate>): seq<Row> {
    if rows == [] then []
    else
      var rest := Scan(rows[..|rows| - 1], preds);
      var r := rows[|rows| - 1];
      if Holds(preds, r) then rest + [r] else rest
  }

  function Window<T>(base: Base, s: seq<T>): seq<T> {
    var tail := if base.offset <= |s| then s[base.offset..] else [];
    if base.limit.Some? && base.limit.value < |tail| then tail[..base.limit.value] else tail
  }

  function Select(rows: seq<Row>, base: Base): seq<Row> {
    Window(base, Scan(rows, base.preds))
  }

  /** The joined rows of the given accounts whose group satisfies the predicates. */
  function ScanJoin(pairs: seq<(Row, Row)>, preds: seq<Predicate>, accounts: set<int>): seq<(Row, Row)> {
    if pairs == [] then []
    else
      var rest := ScanJoin(pairs[..|pairs| - 1], preds, accounts);
      var p := pairs[|pairs| - 1];
      if Holds(preds, p.1) && Satisfies(In(AccountID, accounts), p.0) then rest + [p] else rest
  }

  /** A row of a leaf entity, or of any entity before its edges are loaded. */
  function Leaves(rows: seq<Row>, table: seq<Column>, base: Base): seq<Row> {
    ProjectAll(Select(rows, base), ColumnsWithId(table, base))
  }

  // ------------------------------------------------------------- assumptions

  ghost predicate DistinctIds(rows: seq<Row>) {
    forall i, j | 0 <= i < j < |rows| :: Key(rows[i], ID) != Key(rows[j], ID)
  }

  predicate JoinsOn(link: Row, group: Row) {
    IntAt(link, GroupID).Some? && IntAt(link, GroupID) == IntAt(group, ID)
  }

  /** Primary keys are unique, and `joinScan` enumerates exactly the join of the two tables. */
  ghost predicate ValidDb(db: Db) {
    && DistinctIds(db.accounts)
    && DistinctIds(db.groups)
    && (forall p | p in db.joinScan :: p.0 in db.accountGroups && p.1 in db.groups && JoinsOn(p.0, p.1))
    && (forall l, g | l in db.accountGroups && g in db.groups && JoinsOn(l, g) :: (l, g) in db.joinScan)
  }

  predicate Unlimited(base: Base) {
    base.offset == 0 && base.limit == None
  }

  predicate UnlimitedLeaf(q: Option<LeafQuery>) {
    q.Some? ==> Unlimited(q.value)
  }

  /** No sub-query below the root limits or skips rows. */
  predicate NestedUnlimited(q: AccountQuery)
    decreases q
  {
    && UnlimitedLeaf(q.withGroups) && UnlimitedLeaf(q.withProxy) && UnlimitedLeaf(q.withUsageLogs)
    && (match q.withParent case None => true case Some(p) => Unlimited(p.base) && NestedUnlimited(p))
    && (match q.withChildren case None => true case Some(p) => Unlimited(p.base) && NestedUnlimited(p))
    && (match q.withAccountGroups case None => true case Some(p) => Unlimited(p.base) && NestedUnlimitedGroup(p))
  }

  predicate NestedUnlimitedGroup(q: AccountGroupQuery)
    decreases q
  {
    && UnlimitedLeaf(q.withGroup)
    && (match q.withAccount case None => true case Some(p) => Unlimited(p.base) && NestedUnlimited(p))
  }
}
