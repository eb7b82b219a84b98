/** What eager loading guarantees beyond agreeing with per-entity lookup, and where that agreement stops. */
module EagerProperties {
  import opened Basics
  import opened EntSchema
  import opened EagerSpec
  import opened EagerTheorems

  // ------------------------------------------------- selected fields do not matter

  /** Two scans of the same rows whose nodes agree on every key that loading reads. */
  ghost predicate SameKeys(q: AccountQuery, a: seq<Row>, b: seq<Row>) {
    && |a| == |b|
    && (forall i | 0 <= i < |a| :: Key(a[i], ID) == Key(b[i], ID))
    && (forall i | 0 <= i < |a| :: q.withProxy.Some? ==> IntAt(a[i], ProxyID) == IntAt(b[i], ProxyID))
    && (forall i | 0 <= i < |a| :: q.withParent.Some? ==> IntAt(a[i], ParentAccountID) == IntAt(b[i], ParentAccountID))
  }

  lemma KeySetsAgree(a: seq<Row>, b: seq<Row>, c: Column)
    requires |a| == |b|
    ensures (forall i | 0 <= i < |a| :: IntAt(a[i], c) == IntAt(b[i], c)) ==> KeySet(a, c) == KeySet(b, c)
    ensures (forall i | 0 <= i < |a| :: Key(a[i], c) == Key(b[i], c)) ==> PlainKeySet(a, c) == PlainKeySet(b, c)
  {
    if forall i | 0 <= i < |a| :: IntAt(a[i], c) == IntAt(b[i], c) {
      KeySetWithin(a, b, c);
      KeySetWithin(b, a, c);
    }
    if forall i | 0 <= i < |a| :: Key(a[i], c) == Key(b[i], c) {
      PlainKeySetWithin(a, b, c);
      PlainKeySetWithin(b, a, c);
    }
  }

  lemma KeySetWithin(a: seq<Row>, b: seq<Row>, c: Column)
    requires |a| == |b| && forall i | 0 <= i < |a| :: IntAt(a[i], c) == IntAt(b[i], c)
    ensures KeySet(a, c) <= KeySet(b, c)
  {
    forall v | v in KeySet(a, c) ensures v in KeySet(b, c) {
      var r :| r in a && IntAt(r, c).Some? && IntAt(r, c).value == v;
      var i :| 0 <= i < |a| && a[i] == r;
      assert b[i] in b;
    }
  }

  lemma PlainKeySetWithin(a: seq<Row>, b: seq<Row>, c: Column)
    requires |a| == |b| && forall i | 0 <= i < |a| :: Key(a[i], c) == Key(b[i], c)
    ensures PlainKeySet(a, c) <= PlainKeySet(b, c)
  {
    forall v | v in PlainKeySet(a, c) ensures v in PlainKeySet(b, c) {
      var r :| r in a && Key(r, c) == v;
      var i :| 0 <= i < |a| && a[i] == r;
      assert b[i] in b;
    }
  }

  lemma NodesKeepKeys(db: Db, q: AccountQuery, fields: seq<Column>)
    ensures SameKeys(q, AccountNodes(db, q), AccountNodes(db, q.(base := q.base.(fields := fields))))
  {
    var p := q.(base := q.base.(fields := fields));
    assert Select(db.accounts, p.base) == Select(db.accounts, q.base);
    assert ID in AccountColumns(db, q) && ID in AccountColumns(db, p);
  }

  lemma LeafEdgesFromKeys(db: Db, q: AccountQuery, p: AccountQuery, a: seq<Row>, b: seq<Row>, i: nat)
    requires p == q.(base := p.base) && SameKeys(q, a, b) && i < |a|
    ensures GroupsOf(db, q, a, i) == GroupsOf(db, p, b, i)
    ensures ProxyOf(db, q, a, i) == ProxyOf(db, p, b, i)
    ensures UsageLogsOf(db, q, a, i) == UsageLogsOf(db, p, b, i)
  {
    KeySetsAgree(a, b, ID);
    assert HoldsId(a, i) <==> HoldsId(b, i);
    if q.withGroups.Some? {
      assert JoinRows(db, q.withGroups.value, a) == JoinRows(db, q.withGroups.value, b);
    }
    if q.withProxy.Some? {
      KeySetsAgree(a, b, ProxyID);
      assert FoundProxies(db, q, a) == FoundProxies(db, p, b);
    }
    if q.withUsageLogs.Some? {
      assert FoundUsageLogs(db, q, a) == FoundUsageLogs(db, p, b);
    }
  }

  lemma NestedEdgesFromKeys(db: Db, q: AccountQuery, p: AccountQuery, a: seq<Row>, b: seq<Row>, i: nat)
    requires p == q.(base := p.base) && SameKeys(q, a, b) && i < |a|
    ensures ParentOf(db, q, a, i) == ParentOf(db, p, b, i)
    ensures ChildrenOf(db, q, a, i) == ChildrenOf(db, p, b, i)
    ensures AccountGroupsOf(db, q, a, i) == AccountGroupsOf(db, p, b, i)
  {
    KeySetsAgree(a, b, ID);
    assert HoldsId(a, i) <==> HoldsId(b, i);
    if q.withParent.Some? {
      KeySetsAgree(a, b, ParentAccountID);
      assert ParentsQuery(q, KeySet(a, ParentAccountID)) == ParentsQuery(p, KeySet(b, ParentAccountID));
    }
    if q.withChildren.Some? {
      assert ChildrenQuery(q, PlainKeySet(a, ID)) == ChildrenQuery(p, PlainKeySet(b, ID));
    }
    if q.withAccountGroups.Some? {
      assert AccountGroupsQuery(q, PlainKeySet(a, ID)) == AccountGroupsQuery(p, PlainKeySet(b, ID));
    }
  }

  /** Whatever fields are selected, every edge of every account is the same; only the node's own values change. */
  lemma ProjectionIndependent(db: Db, q: AccountQuery, fields: seq<Column>, i: nat)
    requires i < |BatchAccounts(db, q)|
    ensures var p := q.(base := q.base.(fields := fields));
            && |BatchAccounts(db, p)| == |BatchAccounts(db, q)|
            && BatchAccounts(db, p)[i] == BatchAccounts(db, q)[i].(values := AccountNodes(db, p)[i])
  {
    var p := q.(base := q.base.(fields := fields));
    NodesKeepKeys(db, q, fields);
    BatchAt(db, q, i);
    BatchAt(db, p, i);
    LeafEdgesFromKeys(db, q, p, AccountNodes(db, q), AccountNodes(db, p), i);
    NestedEdgesFromKeys(db, q, p, AccountNodes(db, q), AccountNodes(db, p), i);
  }

  // ------------------------------------------------------------ reading an edge

  datatype EdgeError = NotLoaded | NotFound

  function ProxyOrErr(t: AccountTree): Result<Row, EdgeError> {
    if t.proxy.Some? then Ok(t.proxy.value) else if |t.loaded| > 1 && t.loaded[1] then Err(NotFound) else Err(NotLoaded)
  }

  function ParentOrErr(t: AccountTree): Result<AccountTree, EdgeError> {
    if t.parent.Some? then Ok(t.parent.value) else if |t.loaded| > 2 && t.loaded[2] then Err(NotFound) else Err(NotLoaded)
  }

  /** A row of the table that a sub-query with foreign key `fk` is looking for. */
  ghost predicate Referenced(rows: seq<Row>, base: Base, fk: Option<int>, r: Row) {
    r in rows && Holds(base.preds, r) && fk.Some? && IntAt(r, ID) == fk
  }

  lemma SelectOne(rows: seq<Row>, base: Base, fk: Option<int>, r: Row)
    requires Unlimited(base) && fk.Some?
    ensures r in Select(rows, Narrow(base, ID, {fk.value})) <==> Referenced(rows, base, fk, r)
  {
    ScanFacts(rows, base.preds + [In(ID, {fk.value})]);
    HoldsNarrowed(base.preds, ID, {fk.value}, r);
  }

  lemma LookUpLeafMeaning(rows: seq<Row>, table: seq<Column>, base: Base, fk: Option<int>)
    requires Unlimited(base)
    ensures LookUpLeaf(rows, table, base, fk).None? <==> forall r :: !Referenced(rows, base, fk, r)
    ensures var found := LookUpLeaf(rows, table, base, fk);
            found.Some? ==> exists r | Referenced(rows, base, fk, r) :: found.value == Project(r, ColumnsWithId(table, base))
  {
    if fk.Some? {
      var selected := Select(rows, Narrow(base, ID, {fk.value}));
      forall r ensures r in selected <==> Referenced(rows, base, fk, r) {
        SelectOne(rows, base, fk, r);
      }
      if selected != [] {
        assert Referenced(rows, base, fk, selected[|selected| - 1]);
      }
    }
  }

  lemma NaiveAt(db: Db, q: AccountQuery, i: nat)
    requires i < |NaiveAccounts(db, q)|
    ensures NaiveAccounts(db, q)[i] == NaiveAccount(db, q, Select(db.accounts, q.base)[i])
  {
  }

  lemma LastNaive(db: Db, q: AccountQuery, ts: seq<AccountTree>, rows: seq<Row>)
    requires ts == NaiveAccounts(db, q) && rows == Select(db.accounts, q.base)
    ensures |ts| == |rows|
    ensures rows == [] ==> LastOf(ts) == None
    ensures rows != [] ==> LastOf(ts) == Some(NaiveAccount(db, q, rows[|rows| - 1]))
  {
    if rows != [] {
      NaiveAt(db, q, |rows| - 1);
    }
  }

  lemma LookUpParentIsLast(db: Db, q: AccountQuery, k: int)
    requires q.withParent.Some?
    ensures var selected := Select(db.accounts, Narrow(q.withParent.value.base, ID, {k}));
            LookUpParent(db, q, Some(k))
            == if selected == [] then None else Some(NaiveAccount(db, q.withParent.value, selected[|selected| - 1]))
  {
    var one := ParentsQuery(q, {k});
    var selected := Select(db.accounts, one.base);
    LastNaive(db, one, NaiveAccounts(db, one), selected);
    if selected != [] {
      NaiveIgnoresPredicates(db, q.withParent.value, one.base, selected[|selected| - 1]);
    }
  }

  lemma LookUpParentMeaning(db: Db, q: AccountQuery, fk: Option<int>)
    requires q.withParent.Some? && Unlimited(q.withParent.value.base)
    ensures LookUpParent(db, q, fk).None? <==> forall r :: !Referenced(db.accounts, q.withParent.value.base, fk, r)
    ensures var found := LookUpParent(db, q, fk);
            found.Some? ==> exists r | Referenced(db.accounts, q.withParent.value.base, fk, r) ::
                              found.value == NaiveAccount(db, q.withParent.value, r)
  {
    if fk.Some? {
      var base := q.withParent.value.base;
      var selected := Select(db.accounts, Narrow(base, ID, {fk.value}));
      LookUpParentIsLast(db, q, fk.value);
      forall r ensures r in selected <==> Referenced(db.accounts, base, fk, r) {
        SelectOne(db.accounts, base, fk, r);
      }
      if selected != [] {
        assert selected[|selected| - 1] in selected;
      }
    }
  }

  /** The proxy edge reads not-loaded, not-found or a row, exactly by request and by what the table holds. */
  lemma ProxyOrErrMeaning(db: Db, q: AccountQuery, i: nat)
    requires ValidDb(db) && NestedUnlimited(q) && i < |BatchAccounts(db, q)|
    ensures var fk := IntAt(Select(db.accounts, q.base)[i], ProxyID);
            match ProxyOrErr(BatchAccounts(db, q)[i])
            case Err(NotLoaded) => q.withProxy.None?
            case Err(NotFound) => q.withProxy.Some? && forall r :: !Referenced(db.proxies, q.withProxy.value, fk, r)
            case Ok(v) =>
              q.withProxy.Some? && exists r | Referenced(db.proxies, q.withProxy.value, fk, r) ::
                v == Project(r, ColumnsWithId(ProxyTable(db), q.withProxy.value))
  {
    BatchAt(db, q, i);
    UnlimitedSeparable(db, q);
    LeafEdgesAgree(db, q, i);
    if q.withProxy.Some? {
      LookUpLeafMeaning(db.proxies, ProxyTable(db), q.withProxy.value, IntAt(Select(db.accounts, q.base)[i], ProxyID));
    }
  }

  /** The parent edge likewise; what it reads is that parent looked up on its own. */
  lemma ParentOrErrMeaning(db: Db, q: AccountQuery, i: nat)
    requires ValidDb(db) && NestedUnlimited(q) && i < |BatchAccounts(db, q)|
    ensures var fk := IntAt(Select(db.accounts, q.base)[i], ParentAccountID);
            match ParentOrErr(BatchAccounts(db, q)[i])
            case Err(NotLoaded) => q.withParent.None?
            case Err(NotFound) => q.withParent.Some? && forall r :: !Referenced(db.accounts, q.withParent.value.base, fk, r)
            case Ok(t) =>
              q.withParent.Some? && exists r | Referenced(db.accounts, q.withParent.value.base, fk, r) ::
                Same(t, NaiveAccount(db, q.withParent.value, r))
  {
    BatchAt(db, q, i);
    UnlimitedSeparable(db, q);
    ParentAgrees(db, q, i);
    if q.withParent.Some? {
      LookUpParentMeaning(db, q, IntAt(Select(db.accounts, q.base)[i], ParentAccountID));
    }
  }

  // --------------------------------------------- the order of many-to-many groups

  /** The first joined row that carries group `g`. */
  function FirstAt(js: seq<(Row, Row)>, n: nat, g: int): nat
    requires n <= |js| && SeenUpTo(js, n, g)
  {
    if SeenUpTo(js, n - 1, g) then FirstAt(js, n - 1, g) else n - 1
  }

  lemma {:induction false} FirstAtStable(js: seq<(Row, Row)>, n: nat, m: nat, g: int)
    requires n <= m <= |js| && SeenUpTo(js, n, g)
    ensures SeenUpTo(js, m, g) && FirstAt(js, m, g) == FirstAt(js, n, g) < n
    decreases m
  {
    if n < m {
      FirstAtStable(js, n, m - 1, g);
    } else if SeenUpTo(js, n - 1, g) {
      FirstAtStable(js, n - 1, n - 1, g);
    }
  }

  /** Groups listed in the order in which the batch's joined rows first mention them. */
  ghost predicate FirstSeenOrder(js: seq<(Row, Row)>, groups: seq<Row>) {
    && (forall x | 0 <= x < |groups| :: SeenUpTo(js, |js|, Key(groups[x], ID)))
    && (forall x, y | 0 <= x < y < |groups| ::
          FirstAt(js, |js|, Key(groups[x], ID)) < FirstAt(js, |js|, Key(groups[y], ID)))
  }

  lemma {:induction false} FirstAppearancesOrdered(js: seq<(Row, Row)>, n: nat)
    requires n <= |js|
    ensures FirstSeenOrder(js, FirstAppearances(js, n))
    ensures forall x | 0 <= x < |FirstAppearances(js, n)| ::
              SeenUpTo(js, |js|, Key(FirstAppearances(js, n)[x], ID)) && FirstAt(js, |js|, Key(FirstAppearances(js, n)[x], ID)) < n
  {
    if n > 0 {
      FirstAppearancesOrdered(js, n - 1);
      var g := Key(js[n - 1].1, ID);
      if !SeenUpTo(js, n - 1, g) {
        assert SeenUpTo(js, n, g) && FirstAt(js, n, g) == n - 1;
        FirstAtStable(js, n, |js|, g);
      }
    }
  }

  lemma {:induction false} LinkedGroupsOrdered(js: seq<(Row, Row)>, groups: seq<Row>, n: nat, k: int)
    requires n <= |groups| && FirstSeenOrder(js, groups)
    ensures FirstSeenOrder(js, LinkedGroups(js, groups, n, k))
  {
    if n > 0 {
      LinkedGroupsOrdered(js, groups, n - 1, k);
      var rest := LinkedGroups(js, groups, n - 1, k);
      forall x | 0 <= x < |rest|
        ensures FirstAt(js, |js|, Key(rest[x], ID)) < FirstAt(js, |js|, Key(groups[n - 1], ID))
      {
        LinkedGroupsMembers(js, groups, n - 1, k, rest[x]);
        var y :| 0 <= y < n - 1 && groups[y] == rest[x];
      }
    }
  }

  /** Every account lists its groups without repetition, in the order in which the batch first mentions them. */
  lemma GroupsInFirstSeenOrder(db: Db, q: AccountQuery, nodes: seq<Row>, i: nat)
    requires i < |nodes| && q.withGroups.Some?
    ensures FirstSeenOrder(JoinRows(db, q.withGroups.value, nodes), GroupsOf(db, q, nodes, i))
    ensures DistinctIds(GroupsOf(db, q, nodes, i))
  {
    var js := JoinRows(db, q.withGroups.value, nodes);
    var firsts := FirstAppearances(js, |js|);
    var groups := ProjectAll(firsts, ColumnsWithId(GroupTable(db), q.withGroups.value));
    FirstAppearancesOrdered(js, |js|);
    FirstAppearancesDistinct(js, |js|);
    assert forall x | 0 <= x < |groups| :: Key(groups[x], ID) == Key(firsts[x], ID);
    LinkedGroupsOrdered(js, groups, |groups|, Key(nodes[i], ID));
    LinkedGroupsDistinct(js, groups, |groups|, Key(nodes[i], ID));
  }
}
