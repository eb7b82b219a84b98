/** Hash-map indexes, scatter loops, and the edges whose neighbours are leaf entities. */
module EagerEdges {
  import opened Basics
  import opened EntSchema
  import opened EagerSpec
  import opened EagerTheorems
  import opened EntNodes

  // ------------------------------------------------------------ leaf entities

  /** Scan and assign one leaf row, column by column. */
  method AssignLeaf(columns: seq<Column>, cells: seq<Cell>, ghost row: Row) returns (node: Row)
    requires cells == Fetch(row, columns)
    ensures node == Project(row, columns)
  {
    node := map[];
    for i := 0 to |columns|
      invariant node == Project(row, columns[..i])
    {
      node := node[columns[i] := cells[i]];
      ProjectStep(row, columns, i);
    }
    assert columns[..|columns|] == columns;
  }

  /** `query.All` for an entity whose own edges are not part of this model. */
  method AllLeaves(d: Driver, rows: seq<Row>, table: seq<Column>, base: Base) returns (r: Result<seq<Row>, LoadError>)
    modifies d
    ensures old(d.issued) <= d.issued <= old(d.issued) + 1
    ensures r.Ok? ==> d.issued == old(d.issued) + 1 && Quiet(d.faults, old(d.issued), d.issued)
    ensures r.Ok? ==> r.value == Leaves(rows, table, base)
    ensures r.Err? ==> Explained(r.error, ValidFields(base.fields, table), d.faults, old(d.issued), d.issued)
  {
    var bad := PrepareQuery(base.fields, table);
    if bad.Some? {
      return Err(bad.value);
    }
    var columns := ColumnsWithId(table, base);
    var fetched := d.QueryNodes(rows, base, columns);
    if fetched.Err? {
      return Err(fetched.error);
    }
    var nodes: seq<Row> := [];
    ghost var found := Select(rows, base);
    for k := 0 to |fetched.value|
      invariant d.issued == old(d.issued) + 1
      invariant |nodes| == k
      invariant forall i | 0 <= i < k :: nodes[i] == Project(found[i], columns)
    {
      var node := AssignLeaf(columns, fetched.value[k], found[k]);
      nodes := nodes + [node];
    }
    r := Ok(nodes);
  }

  // --------------------------------------------------------- hash-map indexes

  /** The index of many-to-one loading: each key once in `ids`, and the nodes of every key in order. */
  method IndexByKey<T>(nodes: seq<T>, keys: seq<Option<int>>) returns (ids: seq<int>, nodeids: map<int, seq<T>>)
    requires |nodes| == |keys|
    ensures NoDuplicates(ids)
    ensures forall k :: k in nodeids <==> k in ids
    ensures forall i | 0 <= i < |keys| && keys[i].Some? :: keys[i].value in ids
    ensures forall k | k in ids :: exists i | 0 <= i < |keys| :: keys[i] == Some(k)
    ensures forall k | k in nodeids :: nodeids[k] == Owned(nodes, keys, k)
  {
    ids, nodeids := [], map[];
    for i := 0 to |nodes|
      invariant NoDuplicates(ids)
      invariant forall k :: k in nodeids <==> k in ids
      invariant forall j | 0 <= j < i && keys[j].Some? :: keys[j].value in ids
      invariant forall k | k in nodeids :: nodeids[k] == OwnedUpTo(nodes, keys, i, k) != []
      invariant forall k | k !in nodeids :: OwnedUpTo(nodes, keys, i, k) == []
    {
      if keys[i].None? {
        continue;
      }
      var fk := keys[i].value;
      if fk !in nodeids {
        ids := ids + [fk];
        nodeids := nodeids[fk := []];
      }
      nodeids := nodeids[fk := nodeids[fk] + [nodes[i]]];
    }
    forall k | k in ids ensures exists i | 0 <= i < |keys| :: keys[i] == Some(k) {
      OwnedMembers(nodes, keys, |nodes|, k);
      assert nodeids[k][0] in Owned(nodes, keys, k);
    }
  }

  /** Node objects, distinct, scanned from `rows`. */
  ghost predicate AreNodes(nodes: seq<Account>, rows: seq<Row>)
    reads nodes`id, nodes`proxyID, nodes`parentAccountID, nodes`values
  {
    |nodes| == |rows| && NoDuplicates(nodes) && forall i | 0 <= i < |nodes| :: nodes[i].Scanned(rows[i])
  }

  ghost predicate AreGroupNodes(nodes: seq<AccountGroup>, rows: seq<Row>)
    reads nodes`accountID, nodes`groupID, nodes`values
  {
    |nodes| == |rows| && NoDuplicates(nodes) && forall i | 0 <= i < |nodes| :: nodes[i].Scanned(rows[i])
  }

  /** The ID under which a node is held in the index, if it is. */
  function HeldIds(rows: seq<Row>): seq<Option<int>> {
    seq(|rows|, i requires 0 <= i < |rows| => if HoldsId(rows, i) then Some(Key(rows[i], ID)) else None)
  }

  /** `byID` maps each ID to the one node that holds it. */
  ghost predicate Indexed(nodes: seq<Account>, held: seq<Option<int>>, byID: map<int, Account>) {
    && |nodes| == |held|
    && (forall i | 0 <= i < |held| && held[i].Some? :: held[i].value in byID)
    && (forall k {:trigger byID[k]} | k in byID :: byID[k] in nodes)
    && (forall i, k {:trigger byID[k], nodes[i]} | 0 <= i < |nodes| && k in byID :: byID[k] == nodes[i] <==> held[i] == Some(k))
  }

  /** Where the last of the first `n` rows with ID `k` stands. */
  ghost function LastAt(rows: seq<Row>, n: nat, k: int): Option<nat>
    requires n <= |rows|
  {
    if n == 0 then None else if Key(rows[n - 1], ID) == k then Some(n - 1) else LastAt(rows, n - 1, k)
  }

  lemma {:induction false} LastAtFacts(rows: seq<Row>, n: nat, k: int, i: nat)
    requires i < n <= |rows|
    ensures LastAt(rows, n, k).Some? ==> LastAt(rows, n, k).value < n && Key(rows[LastAt(rows, n, k).value], ID) == k
    ensures LastAt(rows, n, k) == Some(i) <==> Key(rows[i], ID) == k && forall j | i < j < n :: Key(rows[j], ID) != k
    ensures Key(rows[i], ID) == k ==> LastAt(rows, n, k).Some?
  {
    if i < n - 1 {
      LastAtFacts(rows, n - 1, k, i);
    } else if n > 1 {
      LastAtFacts(rows, n - 1, k, n - 2);
    }
  }

  lemma LastAtIsHeld(rows: seq<Row>, i: nat, k: int)
    requires i < |rows|
    ensures LastAt(rows, |rows|, k) == Some(i) <==> HeldIds(rows)[i] == Some(k)
  {
    LastAtFacts(rows, |rows|, k, i);
  }

  lemma LastAtKeys(rows: seq<Row>, k: int)
    ensures LastAt(rows, |rows|, k).Some? ==> LastAt(rows, |rows|, k).value < |rows|
    ensures LastAt(rows, |rows|, k).Some? <==> k in PlainKeySet(rows, ID)
  {
    if k in PlainKeySet(rows, ID) {
      var r :| r in rows && Key(r, ID) == k;
      var i :| 0 <= i < |rows| && rows[i] == r;
      LastAtFacts(rows, |rows|, k, i);
    }
    if |rows| > 0 {
      LastAtFacts(rows, |rows|, k, 0);
      if LastAt(rows, |rows|, k).Some? {
        assert rows[LastAt(rows, |rows|, k).value] in rows;
      }
    }
  }

  lemma LastAtIndexes(nodes: seq<Account>, rows: seq<Row>, held: seq<Option<int>>, byID: map<int, Account>)
    requires |nodes| == |rows| && NoDuplicates(nodes) && held == HeldIds(rows)
    requires forall k :: k in byID <==> LastAt(rows, |rows|, k).Some?
    requires forall k | k in byID :: LastAt(rows, |rows|, k).value < |nodes| && byID[k] == nodes[LastAt(rows, |rows|, k).value]
    ensures byID.Keys == PlainKeySet(rows, ID)
    ensures Indexed(nodes, held, byID)
  {
    forall k ensures k in byID <==> k in PlainKeySet(rows, ID) {
      LastAtKeys(rows, k);
    }
    forall i, k | 0 <= i < |rows| && k in byID ensures byID[k] == nodes[i] <==> held[i] == Some(k) {
      LastAtIsHeld(rows, i, k);
    }
    forall i | 0 <= i < |rows| && held[i].Some? ensures held[i].value in byID {
      LastAtIsHeld(rows, i, held[i].value);
    }
  }

  /** The index of one-to-many and many-to-many loading: the last node of every ID. */
  method IndexById(nodes: seq<Account>, ghost rows: seq<Row>) returns (fks: set<int>, byID: map<int, Account>)
    requires AreNodes(nodes, rows)
    ensures fks == byID.Keys == PlainKeySet(rows, ID)
    ensures Indexed(nodes, HeldIds(rows), byID)
  {
    fks, byID := {}, map[];
    for i := 0 to |nodes|
      invariant fks == byID.Keys
      invariant forall k :: k in byID <==> LastAt(rows, i, k).Some?
      invariant forall k | k in byID :: LastAt(rows, i, k).value < |nodes| && byID[k] == nodes[LastAt(rows, i, k).value]
    {
      fks := fks + {nodes[i].id};
      byID := byID[nodes[i].id := nodes[i]];
    }
    LastAtIndexes(nodes, rows, HeldIds(rows), byID);
  }

  // -------------------------------------------------- neighbours stay in range

  lemma SelectedWithin(rows: seq<Row>, base: Base, c: Column, keys: set<int>)
    ensures forall r | r in Select(rows, Narrow(base, c, keys)) :: IntAt(r, c).Some? && IntAt(r, c).value in keys
  {
    var narrowed := Narrow(base, c, keys);
    ScanFacts(rows, narrowed.preds);
    forall r | r in Select(rows, narrowed)
      ensures IntAt(r, c).Some? && IntAt(r, c).value in keys
    {
      assert r in Scan(rows, narrowed.preds);
      HoldsNarrowed(base.preds, c, keys, r);
    }
  }

  lemma LeavesWithin(rows: seq<Row>, table: seq<Column>, base: Base, c: Column, keys: set<int>)
    requires c in ColumnsWithId(table, base)
    ensures var found := Leaves(rows, table, Narrow(base, c, keys));
            PlainKeys(found, c) == Keys(found, c) && forall i | 0 <= i < |found| :: Key(found[i], c) in keys
  {
    var selected := Select(rows, Narrow(base, c, keys));
    SelectedWithin(rows, base, c, keys);
    assert forall i | 0 <= i < |selected| :: selected[i] in selected;
  }

  lemma KeysOfNodes(ids: seq<int>, keys: seq<Option<int>>, rows: seq<Row>, c: Column)
    requires keys == Keys(rows, c)
    requires forall i | 0 <= i < |keys| && keys[i].Some? :: keys[i].value in ids
    requires forall k | k in ids :: exists i | 0 <= i < |keys| :: keys[i] == Some(k)
    ensures (set k | k in ids) == KeySet(rows, c)
  {
    forall k | k in ids ensures k in KeySet(rows, c) {
      var i :| 0 <= i < |keys| && keys[i] == Some(k);
      assert rows[i] in rows;
    }
    forall k | k in KeySet(rows, c) ensures k in ids {
      var r :| r in rows && IntAt(r, c).Some? && IntAt(r, c).value == k;
      var i :| 0 <= i < |rows| && rows[i] == r;
      assert keys[i] == Some(k);
    }
  }

  lemma PlainKeysOfNodes(ids: seq<int>, keys: seq<Option<int>>, rows: seq<Row>, c: Column)
    requires keys == PlainKeys(rows, c)
    requires forall i | 0 <= i < |keys| && keys[i].Some? :: keys[i].value in ids
    requires forall k | k in ids :: exists i | 0 <= i < |keys| :: keys[i] == Some(k)
    ensures (set k | k in ids) == PlainKeySet(rows, c)
  {
    forall k | k in ids ensures k in PlainKeySet(rows, c) {
      var i :| 0 <= i < |keys| && keys[i] == Some(k);
      assert rows[i] in rows;
    }
    forall k | k in PlainKeySet(rows, c) ensures k in ids {
      var r :| r in rows && Key(r, c) == k;
      var i :| 0 <= i < |rows| && rows[i] == r;
      assert keys[i] == Some(k);
    }
  }

  /** In the index of many-to-one loading, a node is listed exactly under its own key. */
  lemma Listed<T>(nodes: seq<T>, keys: seq<Option<int>>, k: int, i: nat)
    requires |nodes| == |keys| && NoDuplicates(nodes) && i < |nodes|
    ensures nodes[i] in Owned(nodes, keys, k) <==> keys[i] == Some(k)
  {
    OwnedMembers(nodes, keys, |nodes|, k);
  }

  // ------------------------------------------------------- many-to-one loading

  /** `for i := range nodes { assign(nodes[i], n) }` on the nodes listed under one key. */
  method AssignProxy(owners: seq<Account>, proxy: Row, ghost nodes: seq<Account>, ghost keys: seq<Option<int>>, ghost k: int)
    requires |nodes| == |keys| && NoDuplicates(nodes) && owners == Owned(nodes, keys, k)
    modifies nodes`edges
    ensures forall i | 0 <= i < |nodes| ::
              nodes[i].edges == if keys[i] == Some(k) then old(nodes[i].edges).(proxy := Some(proxy)) else old(nodes[i].edges)
  {
    OwnedMembers(nodes, keys, |nodes|, k);
    for x := 0 to |owners|
      invariant forall i | 0 <= i < |nodes| ::
                  nodes[i].edges == if nodes[i] in owners[..x] then old(nodes[i].edges).(proxy := Some(proxy)) else old(nodes[i].edges)
    {
      assert owners[x] in owners && owners[..x + 1] == owners[..x] + [owners[x]];
      owners[x].edges := owners[x].edges.(proxy := Some(proxy));
    }
    assert owners[..|owners|] == owners;
    forall i | 0 <= i < |nodes| ensures nodes[i] in owners <==> keys[i] == Some(k) {
      Listed(nodes, keys, k, i);
    }
  }

  /** The scatter loop of `loadProxy`: an unexpected neighbour is an error, otherwise the last match of every node wins. */
  method ScatterProxies(nodes: seq<Account>, keys: seq<Option<int>>, nodeids: map<int, seq<Account>>, found: seq<Row>)
    returns (err: Option<LoadError>)
    requires |nodes| == |keys| && NoDuplicates(nodes)
    requires forall k | k in nodeids :: nodeids[k] == Owned(nodes, keys, k)
    requires forall n | n in nodes :: n.edges.proxy == None
    modifies nodes`edges
    ensures err.None? <==> forall j | 0 <= j < |found| :: Key(found[j], ID) in nodeids
    ensures err.Some? ==> err.value.UnexpectedKey?
    ensures err.None? ==> forall i | 0 <= i < |nodes| ::
              nodes[i].edges == old(nodes[i].edges).(proxy := Latest(found, PlainKeys(found, ID), keys[i]))
  {
    for j := 0 to |found|
      invariant forall x | 0 <= x < j :: Key(found[x], ID) in nodeids
      invariant forall i | 0 <= i < |nodes| ::
                  nodes[i].edges == old(nodes[i].edges).(proxy := LatestUpTo(found, PlainKeys(found, ID), j, keys[i], None))
    {
      var k := Key(found[j], ID);
      if k !in nodeids {
        return Some(UnexpectedKey(k));
      }
      AssignProxy(nodeids[k], found[j], nodes, keys, k);
    }
    return None;
  }

  lemma NoKeysNoneFound<T>(items: seq<T>, itemKeys: seq<Option<int>>, keys: seq<Option<int>>, ids: seq<int>, i: nat)
    requires |items| == |itemKeys| && i < |keys| && |ids| == 0
    requires forall j | 0 <= j < |keys| && keys[j].Some? :: keys[j].value in ids
    ensures keys[i] == None && Latest(items, itemKeys, keys[i]) == None
  {
    LatestOfMissing(items, itemKeys, |items|);
  }

  method IndexByProxy(nodes: seq<Account>, ghost rows: seq<Row>)
    returns (keys: seq<Option<int>>, ids: seq<int>, nodeids: map<int, seq<Account>>)
    requires AreNodes(nodes, rows)
    ensures keys == Keys(rows, ProxyID)
    ensures (set k | k in ids) == nodeids.Keys == KeySet(rows, ProxyID)
    ensures forall i | 0 <= i < |keys| && keys[i].Some? :: keys[i].value in ids
    ensures forall k | k in nodeids :: nodeids[k] == Owned(nodes, keys, k)
  {
    keys := seq(|nodes|, i requires 0 <= i < |nodes| reads nodes => nodes[i].proxyID);
    ids, nodeids := IndexByKey(nodes, keys);
    KeysOfNodes(ids, keys, rows, ProxyID);
    var idSet := set k | k in ids;
    assert forall k :: k in nodeids.Keys <==> k in idSet;
  }

  lemma ExpectedProxies(db: Db, q: AccountQuery, rows: seq<Row>, found: seq<Row>)
    requires q.withProxy.Some? && found == FoundProxies(db, q, rows)
    ensures forall j | 0 <= j < |found| :: Key(found[j], ID) in KeySet(rows, ProxyID)
    ensures forall i | 0 <= i < |rows| ::
              ProxyOf(db, q, rows, i) == Latest(found, PlainKeys(found, ID), Keys(rows, ProxyID)[i])
  {
    LeavesWithin(db.proxies, ProxyTable(db), q.withProxy.value, ID, KeySet(rows, ProxyID));
  }

  lemma NoKeysNoNodes(keys: seq<Option<int>>, ids: seq<int>)
    requires forall i | 0 <= i < |keys| :: keys[i].Some? && keys[i].value in ids
    ensures |ids| == 0 ==> |keys| == 0
  {
    if |keys| > 0 {
      assert keys[0].value in ids;
    }
  }

  method LoadProxy(d: Driver, q: AccountQuery, nodes: seq<Account>, ghost rows: seq<Row>) returns (err: Option<LoadError>)
    requires q.withProxy.Some? && AreNodes(nodes, rows)
    requires forall n | n in nodes :: n.edges.proxy == None
    modifies d, nodes`edges
    ensures old(d.issued) <= d.issued <= old(d.issued) + 1
    ensures err.None? ==> Quiet(d.faults, old(d.issued), d.issued)
    ensures err.None? ==> forall i | 0 <= i < |nodes| ::
              nodes[i].edges == old(nodes[i].edges).(proxy := ProxyOf(d.db, q, rows, i))
    ensures err.Some? ==> Explained(err.value, ValidLeaf(q.withProxy, ProxyTable(d.db)), d.faults, old(d.issued), d.issued)
  {
    var keys, ids, nodeids := IndexByProxy(nodes, rows);
    if |ids| == 0 {
      ghost var found := FoundProxies(d.db, q, rows);
      ExpectedProxies(d.db, q, rows, found);
      forall i | 0 <= i < |nodes| ensures ProxyOf(d.db, q, rows, i) == None {
        NoKeysNoneFound(found, PlainKeys(found, ID), keys, ids, i);
      }
      return None;
    }
    var all := AllLeaves(d, d.db.proxies, ProxyTable(d.db), Narrow(q.withProxy.value, ID, set k | k in ids));
    if all.Err? {
      return Some(all.error);
    }
    ExpectedProxies(d.db, q, rows, all.value);
    err := ScatterProxies(nodes, keys, nodeids, all.value);
  }

  method AssignGroup(owners: seq<AccountGroup>, group: Row, ghost nodes: seq<AccountGroup>, ghost keys: seq<Option<int>>, ghost k: int)
    requires |nodes| == |keys| && NoDuplicates(nodes) && owners == Owned(nodes, keys, k)
    modifies nodes`edges
    ensures forall i | 0 <= i < |nodes| ::
              nodes[i].edges == if keys[i] == Some(k) then old(nodes[i].edges).(group := Some(group)) else old(nodes[i].edges)
  {
    OwnedMembers(nodes, keys, |nodes|, k);
    for x := 0 to |owners|
      invariant forall i | 0 <= i < |nodes| ::
                  nodes[i].edges == if nodes[i] in owners[..x] then old(nodes[i].edges).(group := Some(group)) else old(nodes[i].edges)
    {
      assert owners[x] in owners && owners[..x + 1] == owners[..x] + [owners[x]];
      owners[x].edges := owners[x].edges.(group := Some(group));
    }
    assert owners[..|owners|] == owners;
    forall i | 0 <= i < |nodes| ensures nodes[i] in owners <==> keys[i] == Some(k) {
      Listed(nodes, keys, k, i);
    }
  }

  method ScatterGroups(nodes: seq<AccountGroup>, keys: seq<Option<int>>, nodeids: map<int, seq<AccountGroup>>, found: seq<Row>)
    returns (err: Option<LoadError>)
    requires |nodes| == |keys| && NoDuplicates(nodes)
    requires forall k | k in nodeids :: nodeids[k] == Owned(nodes, keys, k)
    requires forall n | n in nodes :: n.edges.group == None
    modifies nodes`edges
    ensures err.None? <==> forall j | 0 <= j < |found| :: Key(found[j], ID) in nodeids
    ensures err.Some? ==> err.value.UnexpectedKey?
    ensures err.None? ==> forall i | 0 <= i < |nodes| ::
              nodes[i].edges == old(nodes[i].edges).(group := Latest(found, PlainKeys(found, ID), keys[i]))
  {
    for j := 0 to |found|
      invariant forall x | 0 <= x < j :: Key(found[x], ID) in nodeids
      invariant forall i | 0 <= i < |nodes| ::
                  nodes[i].edges == old(nodes[i].edges).(group := LatestUpTo(found, PlainKeys(found, ID), j, keys[i], None))
    {
      var k := Key(found[j], ID);
      if k !in nodeids {
        return Some(UnexpectedKey(k));
      }
      AssignGroup(nodeids[k], found[j], nodes, keys, k);
    }
    return None;
  }

  lemma ExpectedGroups(db: Db, q: AccountGroupQuery, rows: seq<Row>, found: seq<Row>)
    requires q.withGroup.Some? && found == FoundGroups(db, q, rows)
    ensures forall j | 0 <= j < |found| :: Key(found[j], ID) in PlainKeySet(rows, GroupID)
    ensures forall i | 0 <= i < |rows| ::
              GroupOf(db, q, rows, i) == Latest(found, PlainKeys(found, ID), PlainKeys(rows, GroupID)[i])
  {
    LeavesWithin(db.groups, GroupTable(db), q.withGroup.value, ID, PlainKeySet(rows, GroupID));
  }

  method IndexByGroup(nodes: seq<AccountGroup>, ghost rows: seq<Row>)
    returns (keys: seq<Option<int>>, ids: seq<int>, nodeids: map<int, seq<AccountGroup>>)
    requires AreGroupNodes(nodes, rows)
    ensures keys == PlainKeys(rows, GroupID)
    ensures (set k | k in ids) == nodeids.Keys == PlainKeySet(rows, GroupID)
    ensures forall k | k in nodeids :: nodeids[k] == Owned(nodes, keys, k)
    ensures |ids| == 0 ==> |nodes| == 0
  {
    keys := seq(|nodes|, i requires 0 <= i < |nodes| reads nodes => Some(nodes[i].groupID));
    ids, nodeids := IndexByKey(nodes, keys);
    PlainKeysOfNodes(ids, keys, rows, GroupID);
    var idSet := set k | k in ids;
    assert forall k :: k in nodeids.Keys <==> k in idSet;
    NoKeysNoNodes(keys, ids);
  }

  /** The `group` edge of account-group rows. */
  method LoadGroup(d: Driver, q: AccountGroupQuery, nodes: seq<AccountGroup>, ghost rows: seq<Row>)
    returns (err: Option<LoadError>)
    requires q.withGroup.Some? && AreGroupNodes(nodes, rows)
    requires forall n | n in nodes :: n.edges.group == None
    modifies d, nodes`edges
    ensures old(d.issued) <= d.issued <= old(d.issued) + 1
    ensures err.None? ==> Quiet(d.faults, old(d.issued), d.issued)
    ensures err.None? ==> forall i | 0 <= i < |nodes| ::
              nodes[i].edges == old(nodes[i].edges).(group := GroupOf(d.db, q, rows, i))
    ensures err.Some? ==> Explained(err.value, ValidLeaf(q.withGroup, GroupTable(d.db)), d.faults, old(d.issued), d.issued)
  {
    var keys, ids, nodeids := IndexByGroup(nodes, rows);
    if |ids| == 0 {
      return None;
    }
    var all := AllLeaves(d, d.db.groups, GroupTable(d.db), Narrow(q.withGroup.value, ID, set k | k in ids));
    if all.Err? {
      return Some(all.error);
    }
    ExpectedGroups(d.db, q, rows, all.value);
    err := ScatterGroups(nodes, keys, nodeids, all.value);
  }

  // -------------------------------------------------------- one-to-many loading

  /** The neighbours of a held ID among the first `n`; nothing for a node that the index does not hold. */
  function OwnedBy<T>(held: Option<int>, items: seq<T>, keys: seq<Option<int>>, n: nat): seq<T>
    requires n <= |items| == |keys|
  {
    if held.None? then [] else OwnedUpTo(items, keys, n, held.value)
  }

  /** What the next neighbour adds for every node. */
  lemma OwnedByNext<T>(held: seq<Option<int>>, items: seq<T>, keys: seq<Option<int>>, j: nat)
    requires j < |items| == |keys| && keys[j].Some?
    ensures forall i | 0 <= i < |held| :: OwnedBy(held[i], items, keys, j + 1)
              == OwnedBy(held[i], items, keys, j) + if held[i] == keys[j] then [items[j]] else []
  {
  }

  /** The first `n` keys are among the IDs that were asked for. */
  predicate KnownUpTo(keys: seq<Option<int>>, n: nat, ids: set<int>)
    requires n <= |keys|
  {
    n == 0 || (KnownUpTo(keys, n - 1, ids) && keys[n - 1].Some? && keys[n - 1].value in ids)
  }

  lemma {:induction false} KnownIff(keys: seq<Option<int>>, n: nat, ids: set<int>)
    requires n <= |keys|
    ensures KnownUpTo(keys, n, ids) <==> forall j | 0 <= j < n :: keys[j].Some? && keys[j].value in ids
  {
    if n > 0 {
      KnownIff(keys, n - 1, ids);
    }
  }

  lemma {:induction false} NotKnown(keys: seq<Option<int>>, j: nat, n: nat, ids: set<int>)
    requires j < n <= |keys| && !(keys[j].Some? && keys[j].value in ids)
    ensures !KnownUpTo(keys, n, ids)
  {
    if j < n - 1 {
      NotKnown(keys, j, n - 1, ids);
    }
  }

  /** `assign(node, n)` for the node that the index holds under `k`. */
  method GiveUsageLog(nodes: seq<Account>, ghost held: seq<Option<int>>, byID: map<int, Account>, k: int, log: Row)
    requires Indexed(nodes, held, byID) && k in byID
    modifies nodes`edges
    ensures forall i | 0 <= i < |nodes| :: nodes[i].edges == old(nodes[i].edges).(
              usageLogs := old(nodes[i].edges).usageLogs + if held[i] == Some(k) then [log] else [])
  {
    var node := byID[k];
    node.edges := node.edges.(usageLogs := node.edges.usageLogs + [log]);
  }

  /** One neighbour of the loop in `loadUsageLogs`, after the first `j`. */
  method NextUsageLog(nodes: seq<Account>, ghost held: seq<Option<int>>, byID: map<int, Account>,
                      found: seq<Row>, ghost keys: seq<Option<int>>, j: nat, ghost before: seq<AccountEdges>)
    returns (err: Option<LoadError>)
    requires Indexed(nodes, held, byID) && |before| == |nodes|
    requires j < |found| == |keys| && keys[j] == Some(Key(found[j], AccountID))
    requires forall i | 0 <= i < |nodes| :: nodes[i].edges == before[i].(usageLogs := OwnedBy(held[i], found, keys, j))
    modifies nodes`edges
    ensures err.None? <==> keys[j].value in byID
    ensures err.Some? ==> err.value.UnexpectedKey?
    ensures err.None? ==> forall i | 0 <= i < |nodes| ::
              nodes[i].edges == before[i].(usageLogs := OwnedBy(held[i], found, keys, j + 1))
  {
    var fk := Key(found[j], AccountID);
    if fk !in byID {
      return Some(UnexpectedKey(fk));
    }
    OwnedByNext(held, found, keys, j);
    GiveUsageLog(nodes, held, byID, fk, found[j]);
    return None;
  }

  method ScatterKeyedLogs(nodes: seq<Account>, ghost held: seq<Option<int>>, byID: map<int, Account>,
                          found: seq<Row>, ghost keys: seq<Option<int>>)
    returns (err: Option<LoadError>)
    requires Indexed(nodes, held, byID)
    requires |found| == |keys| && forall j | 0 <= j < |found| :: keys[j] == Some(Key(found[j], AccountID))
    requires forall n | n in nodes :: n.edges.usageLogs == []
    modifies nodes`edges
    ensures err.None? <==> KnownUpTo(keys, |found|, byID.Keys)
    ensures err.Some? ==> err.value.UnexpectedKey?
    ensures err.None? ==> forall i | 0 <= i < |nodes| ::
              nodes[i].edges == old(nodes[i].edges).(usageLogs := OwnedBy(held[i], found, keys, |found|))
  {
    ghost var before := seq(|nodes|, i requires 0 <= i < |nodes| reads nodes => nodes[i].edges);
    for j := 0 to |found|
      invariant KnownUpTo(keys, j, byID.Keys)
      invariant forall i | 0 <= i < |nodes| :: nodes[i].edges == before[i].(usageLogs := OwnedBy(held[i], found, keys, j))
    {
      err := NextUsageLog(nodes, held, byID, found, keys, j, before);
      if err.Some? {
        NotKnown(keys, j, |keys|, byID.Keys);
        return;
      }
    }
    return None;
  }

  method ScatterUsageLogs(nodes: seq<Account>, ghost held: seq<Option<int>>, byID: map<int, Account>,
                          found: seq<Row>, ghost keys: seq<Option<int>>)
    returns (err: Option<LoadError>)
    requires Indexed(nodes, held, byID) && keys == PlainKeys(found, AccountID)
    requires forall n | n in nodes :: n.edges.usageLogs == []
    modifies nodes`edges
    ensures err.None? <==> KnownUpTo(keys, |found|, byID.Keys)
    ensures err.Some? ==> err.value.UnexpectedKey?
    ensures err.None? ==> forall i | 0 <= i < |nodes| ::
              nodes[i].edges == old(nodes[i].edges).(usageLogs := OwnedBy(held[i], found, keys, |found|))
  {
    err := ScatterKeyedLogs(nodes, held, byID, found, keys);
  }

  method InitUsageLogs(nodes: seq<Account>)
    requires NoDuplicates(nodes)
    modifies nodes`edges
    ensures forall i | 0 <= i < |nodes| :: nodes[i].edges == old(nodes[i].edges).(usageLogs := [])
  {
    for i := 0 to |nodes|
      invariant forall x | 0 <= x < i :: nodes[x].edges == old(nodes[x].edges).(usageLogs := [])
      invariant forall x | i <= x < |nodes| :: nodes[x].edges == old(nodes[x].edges)
    {
      nodes[i].edges := nodes[i].edges.(usageLogs := []);
    }
  }

  lemma ExpectedUsageLogs(db: Db, q: AccountQuery, rows: seq<Row>, found: seq<Row>)
    requires q.withUsageLogs.Some? && found == FoundUsageLogs(db, q, rows)
    ensures forall j | 0 <= j < |found| :: Key(found[j], AccountID) in PlainKeySet(rows, ID)
    ensures forall i | 0 <= i < |rows| ::
              UsageLogsOf(db, q, rows, i) == OwnedBy(HeldIds(rows)[i], found, PlainKeys(found, AccountID), |found|)
  {
    var base := ForceColumn(q.withUsageLogs.value, AccountID);
    ForcedColumn(q.withUsageLogs.value, AccountID);
    LeavesWithin(db.usageLogs, UsageLogTable(db), base, AccountID, PlainKeySet(rows, ID));
  }

  lemma ForcedValid(base: Base, c: Column, table: seq<Column>)
    requires c in table
    ensures ValidFields(ForceColumn(base, c).fields, table) <==> ValidFields(base.fields, table)
  {
    if c !in base.fields && |base.fields| > 0 {
      assert forall d | d in base.fields :: d in base.fields + [c];
    }
  }

  method LoadUsageLogs(d: Driver, q: AccountQuery, nodes: seq<Account>, ghost rows: seq<Row>) returns (err: Option<LoadError>)
    requires q.withUsageLogs.Some? && AreNodes(nodes, rows)
    modifies d, nodes`edges
    ensures old(d.issued) <= d.issued <= old(d.issued) + 1
    ensures err.None? ==> Quiet(d.faults, old(d.issued), d.issued)
    ensures err.None? ==> forall i | 0 <= i < |nodes| ::
              nodes[i].edges == old(nodes[i].edges).(usageLogs := UsageLogsOf(d.db, q, rows, i))
    ensures err.Some? ==> Explained(err.value, ValidLeaf(q.withUsageLogs, UsageLogTable(d.db)), d.faults, old(d.issued), d.issued)
  {
    var fks, byID := IndexById(nodes, rows);
    InitUsageLogs(nodes);
    var base := ForceColumn(q.withUsageLogs.value, AccountID);
    ForcedValid(q.withUsageLogs.value, AccountID, UsageLogTable(d.db));
    var all := AllLeaves(d, d.db.usageLogs, UsageLogTable(d.db), Narrow(base, AccountID, fks));
    if all.Err? {
      return Some(all.error);
    }
    ExpectedUsageLogs(d.db, q, rows, all.value);
    KnownIff(PlainKeys(all.value, AccountID), |all.value|, byID.Keys);
    err := ScatterUsageLogs(nodes, HeldIds(rows), byID, all.value, PlainKeys(all.value, AccountID));
  }

  // ------------------------------------------------------ many-to-many loading

  method InitGroups(nodes: seq<Account>)
    requires NoDuplicates(nodes)
    modifies nodes`edges
    ensures forall i | 0 <= i < |nodes| :: nodes[i].edges == old(nodes[i].edges).(groups := [])
  {
    for i := 0 to |nodes|
      invariant forall x | 0 <= x < i :: nodes[x].edges == old(nodes[x].edges).(groups := [])
      invariant forall x | i <= x < |nodes| :: nodes[x].edges == old(nodes[x].edges)
    {
      nodes[i].edges := nodes[i].edges.(groups := []);
    }
  }

  /** The joined rows name only accounts of the batch. */
  ghost predicate JoinedWithin(js: seq<(Row, Row)>, ids: set<int>) {
    forall j | 0 <= j < |js| :: Key(js[j].0, AccountID) in ids
  }

  /** The accounts that the first `x` joined rows link to group `g`. */
  ghost function Members(byID: map<int, Account>, js: seq<(Row, Row)>, x: nat, g: int): set<Account>
    requires x <= |js|
  {
    set k | k in byID && LinkedUpTo(js, x, k, g) :: byID[k]
  }

  lemma MembersStep(byID: map<int, Account>, js: seq<(Row, Row)>, x: nat, g: int)
    requires x < |js| && Key(js[x].0, AccountID) in byID
    ensures Members(byID, js, x + 1, g)
         == Members(byID, js, x, g) + if Key(js[x].1, ID) == g then {byID[Key(js[x].0, AccountID)]} else {}
    ensures !SeenUpTo(js, x, g) ==> Members(byID, js, x, g) == {}
    ensures SeenUpTo(js, x + 1, g) <==> SeenUpTo(js, x, g) || Key(js[x].1, ID) == g
  {
    forall k
      ensures LinkedUpTo(js, x + 1, k, g)
         <==> LinkedUpTo(js, x, k, g) || (Key(js[x].0, AccountID) == k && Key(js[x].1, ID) == g)
    {
      if LinkedUpTo(js, x + 1, k, g) {
        var j :| 0 <= j < x + 1 && Key(js[j].0, AccountID) == k && Key(js[j].1, ID) == g;
        assert j < x ==> LinkedUpTo(js, x, k, g);
      }
    }
    forall n ensures n in Members(byID, js, x + 1, g)
                <==> n in Members(byID, js, x, g) || (Key(js[x].1, ID) == g && n == byID[Key(js[x].0, AccountID)])
    {
      if Key(js[x].1, ID) == g {
        assert LinkedUpTo(js, x + 1, Key(js[x].0, AccountID), g);
      }
    }
  }

  /** One scanned row: the account ID, the group ID, and the cells left for the group itself. */
  method SplitJoined(cells: seq<Cell>, ghost link: Row, ghost group: Row, ghost columns: seq<Column>)
    returns (outValue: int, inValue: int, rest: seq<Cell>)
    requires |columns| > 0 && columns[0] == ID && cells == [At(link, AccountID)] + Fetch(group, columns)
    ensures outValue == Key(link, AccountID) && inValue == Key(group, ID) && rest == Fetch(group, columns)
  {
    outValue := if cells[0].Int? then cells[0].value else 0;
    inValue := if cells[1].Int? then cells[1].value else 0;
    rest := cells[1..];
  }

  /** `nids` after the first `x` joined rows. */
  ghost predicate Noted(byID: map<int, Account>, nids: map<int, set<Account>>, js: seq<(Row, Row)>, x: nat)
    requires x <= |js|
  {
    && (forall g :: g in nids <==> SeenUpTo(js, x, g))
    && (forall g | g in nids :: nids[g] == Members(byID, js, x, g))
  }

  method NoteJoined(byID: map<int, Account>, nids: map<int, set<Account>>, outValue: int, inValue: int,
                    ghost js: seq<(Row, Row)>, ghost x: nat)
    returns (noted: map<int, set<Account>>)
    requires x < |js| && outValue == Key(js[x].0, AccountID) && inValue == Key(js[x].1, ID) && outValue in byID
    requires Noted(byID, nids, js, x)
    ensures Noted(byID, noted, js, x + 1)
  {
    forall g ensures Members(byID, js, x + 1, g)
                  == Members(byID, js, x, g) + if inValue == g then {byID[outValue]} else {}
             ensures !SeenUpTo(js, x, g) ==> Members(byID, js, x, g) == {}
             ensures SeenUpTo(js, x + 1, g) <==> SeenUpTo(js, x, g) || inValue == g
    {
      MembersStep(byID, js, x, g);
    }
    if inValue !in nids {
      noted := nids[inValue := {byID[outValue]}];
    } else {
      noted := nids[inValue := nids[inValue] + {byID[outValue]}];
    }
  }

  /**
   * The rewritten scanner: the first cell is the account ID, the second the group ID, the rest belongs to the group.
   * A group is kept at its first row only, and `nids` collects the accounts of every group.
   */
  method ScanJoined(byID: map<int, Account>, columns: seq<Column>, fetched: seq<seq<Cell>>, ghost js: seq<(Row, Row)>)
    returns (groups: seq<Row>, nids: map<int, set<Account>>)
    requires |columns| > 0 && columns[0] == ID
    requires |fetched| == |js| && JoinedWithin(js, byID.Keys)
    requires forall x | 0 <= x < |js| :: fetched[x] == [At(js[x].0, AccountID)] + Fetch(js[x].1, columns)
    ensures groups == ProjectAll(FirstAppearances(js, |js|), columns)
    ensures forall g :: g in nids <==> SeenUpTo(js, |js|, g)
    ensures forall g | g in nids :: nids[g] == Members(byID, js, |js|, g)
  {
    groups, nids := [], map[];
    for x := 0 to |fetched|
      invariant groups == ProjectAll(FirstAppearances(js, x), columns)
      invariant Noted(byID, nids, js, x)
    {
      var outValue, inValue, cells := SplitJoined(fetched[x], js[x].0, js[x].1, columns);
      if inValue !in nids {
        var node := AssignLeaf(columns, cells, js[x].1);
        groups := groups + [node];
      }
      nids := NoteJoined(byID, nids, outValue, inValue, js, x);
    }
  }

  /** `for kn := range nodes { assign(kn, n) }`: the map is iterated in any order. */
  method AssignToAll(kns: set<Account>, group: Row, nodes: seq<Account>)
    requires forall n | n in kns :: n in nodes
    modifies nodes`edges
    ensures forall n | n in nodes :: n.edges
              == if n in kns then old(n.edges).(groups := old(n.edges).groups + [group]) else old(n.edges)
  {
    var todo := kns;
    while todo != {}
      invariant todo <= kns
      invariant forall n | n in nodes :: n.edges
                  == if n in kns && n !in todo then old(n.edges).(groups := old(n.edges).groups + [group]) else old(n.edges)
      decreases todo
    {
      var kn :| kn in todo;
      kn.edges := kn.edges.(groups := kn.edges.groups + [group]);
      todo := todo - {kn};
    }
  }

  method ScatterJoined(nodes: seq<Account>, ghost held: seq<Option<int>>, ghost byID: map<int, Account>, groups: seq<Row>,
                       nids: map<int, set<Account>>, ghost js: seq<(Row, Row)>)
    returns (err: Option<LoadError>)
    requires Indexed(nodes, held, byID)
    requires forall g | g in nids :: nids[g] == Members(byID, js, |js|, g)
    requires forall n | n in nodes :: n.edges.groups == []
    modifies nodes`edges
    ensures err.None? <==> forall j | 0 <= j < |groups| :: Key(groups[j], ID) in nids
    ensures err.Some? ==> err.value.UnexpectedKey?
    ensures err.None? ==> forall i | 0 <= i < |nodes| :: nodes[i].edges == old(nodes[i].edges).(
              groups := if held[i].None? then [] else LinkedGroups(js, groups, |groups|, held[i].value))
  {
    for j := 0 to |groups|
      invariant forall x | 0 <= x < j :: Key(groups[x], ID) in nids
      invariant forall i | 0 <= i < |nodes| :: nodes[i].edges == old(nodes[i].edges).(
                  groups := if held[i].None? then [] else LinkedGroups(js, groups, j, held[i].value))
    {
      var g := Key(groups[j], ID);
      if g !in nids {
        return Some(UnexpectedKey(g));
      }
      forall i | 0 <= i < |nodes|
        ensures nodes[i] in nids[g] <==> held[i].Some? && LinkedUpTo(js, |js|, held[i].value, g)
      {
        MemberIsHeld(nodes, held, byID, js, i, g);
      }
      AssignToAll(nids[g], groups[j], nodes);
    }
    return None;
  }

  lemma MemberIsHeld(nodes: seq<Account>, held: seq<Option<int>>, byID: map<int, Account>, js: seq<(Row, Row)>, i: nat, g: int)
    requires Indexed(nodes, held, byID) && i < |nodes|
    ensures nodes[i] in Members(byID, js, |js|, g) <==> held[i].Some? && LinkedUpTo(js, |js|, held[i].value, g)
  {
    if held[i].Some? {
      var k := held[i].value;
      assert held[i] == Some(k) && k in byID;
      assert byID[k] == nodes[i];
    }
  }

  lemma ExpectedJoin(db: Db, q: AccountQuery, rows: seq<Row>, js: seq<(Row, Row)>, groups: seq<Row>)
    requires q.withGroups.Some? && js == JoinRows(db, q.withGroups.value, rows)
    requires groups == ProjectAll(FirstAppearances(js, |js|), ColumnsWithId(GroupTable(db), q.withGroups.value))
    ensures JoinedWithin(js, PlainKeySet(rows, ID))
    ensures forall j | 0 <= j < |groups| :: SeenUpTo(js, |js|, Key(groups[j], ID))
    ensures forall i | 0 <= i < |rows| :: GroupsOf(db, q, rows, i)
              == if HeldIds(rows)[i].None? then [] else LinkedGroups(js, groups, |groups|, HeldIds(rows)[i].value)
  {
    var base := q.withGroups.value;
    var firsts := FirstAppearances(js, |js|);
    ScanJoinFacts(db.joinScan, base.preds, PlainKeySet(rows, ID));
    forall j | 0 <= j < |js| ensures Key(js[j].0, AccountID) in PlainKeySet(rows, ID) {
      assert js[j] in ScanJoin(db.joinScan, base.preds, PlainKeySet(rows, ID));
    }
    forall j | 0 <= j < |groups| ensures SeenUpTo(js, |js|, Key(groups[j], ID)) {
      FirstAppearancesOccur(js, |js|, firsts[j]);
      var x :| 0 <= x < |js| && js[x].1 == firsts[j];
      assert Key(groups[j], ID) == Key(js[x].1, ID);
    }
  }

  /** The `groups` edge: one joined query, each group once, on every account it is linked to. */
  method LoadGroups(d: Driver, q: AccountQuery, nodes: seq<Account>, ghost rows: seq<Row>) returns (err: Option<LoadError>)
    requires q.withGroups.Some? && AreNodes(nodes, rows)
    modifies d, nodes`edges
    ensures old(d.issued) <= d.issued <= old(d.issued) + 1
    ensures err.None? ==> Quiet(d.faults, old(d.issued), d.issued)
    ensures err.None? ==> forall i | 0 <= i < |nodes| ::
              nodes[i].edges == old(nodes[i].edges).(groups := GroupsOf(d.db, q, rows, i))
    ensures err.Some? ==> Explained(err.value, ValidLeaf(q.withGroups, GroupTable(d.db)), d.faults, old(d.issued), d.issued)
  {
    var base := q.withGroups.value;
    var fks, byID := IndexById(nodes, rows);
    InitGroups(nodes);
    var bad := PrepareQuery(base.fields, GroupTable(d.db));
    if bad.Some? {
      return bad;
    }
    var columns := ColumnsWithId(GroupTable(d.db), base);
    var fetched := d.QueryJoin(base, columns, fks);
    if fetched.Err? {
      return Some(fetched.error);
    }
    ghost var js := JoinRows(d.db, base, rows);
    ExpectedJoin(d.db, q, rows, js, ProjectAll(FirstAppearances(js, |js|), columns));
    var groups, nids := ScanJoined(byID, columns, fetched.value, js);
    err := ScatterJoined(nodes, HeldIds(rows), byID, groups, nids, js);
  }
}