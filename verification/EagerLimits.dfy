/** An offset or a limit on a nested query: when it acts on every owner as it would on that owner alone. */
module EagerLimits {
  import opened Basics
  import opened EntSchema
  import opened EagerSpec
  import opened EagerTheorems

  // ------------------------------------------------------------ windows and slices

  /** Where a window on `n` rows begins and ends. */
  function From(base: Base, n: nat): nat {
    if base.offset < n then base.offset else n
  }

  function To(base: Base, n: nat): (end: nat)
    ensures From(base, n) <= end <= n
  {
    if base.limit.Some? && base.offset + base.limit.value < n then base.offset + base.limit.value else n
  }

  lemma WindowIsSlice<T>(base: Base, s: seq<T>)
    ensures Window(base, s) == s[From(base, |s|)..To(base, |s|)]
  {
  }

  /** How many of the first `n` rows belong to owner `k`. */
  function Count(keys: seq<Option<int>>, n: nat, k: int): nat
    requires n <= |keys|
  {
    |OwnedUpTo(keys, keys, n, k)|
  }

  lemma {:induction false} CountFacts(keys: seq<Option<int>>, n: nat, k: int)
    requires n <= |keys|
    ensures Count(keys, n, k) <= n
    ensures Count(keys, n, k) == n <==> forall j | 0 <= j < n :: keys[j] == Some(k)
    ensures Count(keys, n, k) == 0 <==> forall j | 0 <= j < n :: keys[j] != Some(k)
  {
    if n > 0 {
      CountFacts(keys, n - 1, k);
    }
  }

  lemma {:induction false} CountGrows(keys: seq<Option<int>>, n: nat, m: nat, k: int)
    requires n <= m <= |keys|
    ensures Count(keys, n, k) <= Count(keys, m, k)
    ensures n < m && keys[n] == Some(k) ==> Count(keys, n, k) < Count(keys, m, k)
    decreases m
  {
    if n < m {
      CountGrows(keys, n, m - 1, k);
    }
  }

  /** The two slices of an owner's rows, in the batch and alone, are the same, or both empty. */
  predicate SameSlice(keys: seq<Option<int>>, base: Base, k: int) {
    var n := |keys|;
    var first, last := Count(keys, From(base, n), k), Count(keys, To(base, n), k);
    var mine := Count(keys, n, k);
    (first == From(base, mine) && last == To(base, mine)) || (first == last && From(base, mine) == To(base, mine))
  }

  /**
   * A window that is harmless: it skips everything, or cuts nothing, or what it takes and skips belongs to one owner
   * and the others have nothing left after skipping as much.
   */
  ghost predicate Harmless(keys: seq<Option<int>>, base: Base) {
    var n := |keys|;
    || n <= base.offset
    || (base.offset == 0 && To(base, n) == n)
    || ((forall j | 0 <= j < To(base, n) :: keys[j] == keys[0])
        && forall k | Some(k) != keys[0] :: Count(keys, n, k) <= base.offset)
  }

  lemma {:induction false} HarmlessSlices(keys: seq<Option<int>>, base: Base, k: int)
    requires (forall j | 0 <= j < |keys| :: keys[j].Some?) && Harmless(keys, base)
    ensures SameSlice(keys, base, k)
  {
    var n := |keys|;
    CountFacts(keys, From(base, n), k);
    CountFacts(keys, To(base, n), k);
    CountFacts(keys, n, k);
    CountGrows(keys, From(base, n), To(base, n), k);
    CountGrows(keys, To(base, n), n, k);
  }

  /** An owner with a row in the window, behind the offset, owns everything before that. */
  lemma FirstOwner(keys: seq<Option<int>>, base: Base, k: int)
    requires 0 < base.offset < |keys| && keys[base.offset] == Some(k) && SameSlice(keys, base, k)
    ensures forall j | 0 <= j < base.offset :: keys[j] == Some(k)
  {
    CountGrows(keys, base.offset, To(base, |keys|), k);
    CountGrows(keys, To(base, |keys|), |keys|, k);
    CountFacts(keys, base.offset, k);
  }

  lemma OtherOwner(keys: seq<Option<int>>, base: Base, k: int)
    requires 0 < base.offset < |keys| && SameSlice(keys, base, k)
    requires forall j | 0 <= j < base.offset :: keys[j] != Some(k)
    ensures forall j | 0 <= j < To(base, |keys|) :: keys[j] != Some(k)
    ensures Count(keys, |keys|, k) <= base.offset
  {
    CountFacts(keys, base.offset, k);
    CountFacts(keys, To(base, |keys|), k);
    CountGrows(keys, To(base, |keys|), |keys|, k);
  }

  lemma {:induction false} OffsetIsHarmless(keys: seq<Option<int>>, base: Base)
    requires (forall j | 0 <= j < |keys| :: keys[j].Some?) && 0 < base.offset < |keys|
    requires forall k :: SameSlice(keys, base, k)
    ensures Harmless(keys, base)
  {
    var k := keys[base.offset].value;
    FirstOwner(keys, base, k);
    assert keys[0] == Some(k);
    forall other | Some(other) != keys[0] ensures Count(keys, |keys|, other) <= base.offset {
      OtherOwner(keys, base, other);
    }
    forall j | 0 <= j < To(base, |keys|) ensures keys[j] == keys[0] {
      if keys[j] != keys[0] {
        OtherOwner(keys, base, keys[j].value);
      }
    }
  }

  lemma {:induction false} LimitIsHarmless(keys: seq<Option<int>>, base: Base)
    requires (forall j | 0 <= j < |keys| :: keys[j].Some?) && base.offset == 0 && To(base, |keys|) < |keys|
    requires forall k :: SameSlice(keys, base, k)
    ensures Harmless(keys, base)
  {
    var n, end := |keys|, To(base, |keys|);
    var k := keys[end].value;
    assert SameSlice(keys, base, k);
    CountFacts(keys, 0, k);
    CountFacts(keys, end, k);
    CountGrows(keys, end, n, k);
    assert keys[0] == Some(k);
    forall other | Some(other) != keys[0] ensures Count(keys, n, other) <= base.offset {
      assert SameSlice(keys, base, other);
      CountFacts(keys, 0, other);
      CountFacts(keys, end, other);
    }
  }

  /** A window takes the same rows from every owner as from that owner alone exactly when it is harmless. */
  lemma SlicesIff(keys: seq<Option<int>>, base: Base)
    requires forall j | 0 <= j < |keys| :: keys[j].Some?
    ensures (forall k :: SameSlice(keys, base, k)) <==> Harmless(keys, base)
  {
    if Harmless(keys, base) {
      forall k ensures SameSlice(keys, base, k) {
        HarmlessSlices(keys, base, k);
      }
    }
    if forall k :: SameSlice(keys, base, k) {
      if 0 < base.offset < |keys| {
        OffsetIsHarmless(keys, base);
      } else if base.offset == 0 && To(base, |keys|) < |keys| {
        LimitIsHarmless(keys, base);
      }
    }
  }

  // ------------------------------------------------------------- slices of an owner's rows

  lemma OwnedLength<T>(items: seq<T>, keys: seq<Option<int>>, n: nat, k: int)
    requires n <= |items| == |keys|
    ensures |OwnedUpTo(items, keys, n, k)| == Count(keys, n, k)
  {
    OwnedPositions(items, keys, keys, n, k);
  }

  lemma {:induction false} OwnedGrows<T>(items: seq<T>, keys: seq<Option<int>>, n: nat, m: nat, k: int)
    requires n <= m <= |items| == |keys|
    ensures OwnedUpTo(items, keys, n, k) <= OwnedUpTo(items, keys, m, k)
    decreases m
  {
    if n < m {
      OwnedGrows(items, keys, n, m - 1, k);
    }
  }

  lemma {:induction false} OwnedSlice<T>(items: seq<T>, keys: seq<Option<int>>, lo: nat, hi: nat, k: int)
    requires lo <= hi <= |items| == |keys|
    ensures OwnedUpTo(items, keys, lo, k) + Owned(items[lo..hi], keys[lo..hi], k) == OwnedUpTo(items, keys, hi, k)
    decreases hi
  {
    if lo < hi {
      OwnedSlice(items, keys, lo, hi - 1, k);
      var part, ks := items[lo..hi], keys[lo..hi];
      OwnedPrefix(part, ks, items[lo..hi - 1], keys[lo..hi - 1], hi - 1 - lo, k);
    } else {
      assert OwnedUpTo(items, keys, lo, k) + [] == OwnedUpTo(items, keys, hi, k);
    }
  }

  /** What an owner gets out of the window on the batch: a slice of its own rows. */
  lemma OwnedWindow<T>(items: seq<T>, keys: seq<Option<int>>, base: Base, k: int)
    requires |items| == |keys|
    ensures var mine, n := Owned(items, keys, k), |keys|;
            && |Window(base, items)| == |Window(base, keys)|
            && |mine| == Count(keys, n, k)
            && Count(keys, From(base, n), k) <= Count(keys, To(base, n), k) <= |mine|
            && Owned(Window(base, items), Window(base, keys), k)
               == mine[Count(keys, From(base, n), k)..Count(keys, To(base, n), k)]
  {
    var n, mine := |keys|, Owned(items, keys, k);
    WindowIsSlice(base, items);
    WindowIsSlice(base, keys);
    OwnedSlice(items, keys, From(base, n), To(base, n), k);
    OwnedGrows(items, keys, To(base, n), n, k);
    OwnedLength(items, keys, From(base, n), k);
    OwnedLength(items, keys, To(base, n), k);
    OwnedLength(items, keys, n, k);
  }

  lemma {:induction false} OwnedDistinct<T>(items: seq<T>, keys: seq<Option<int>>, n: nat, k: int)
    requires n <= |items| == |keys| && NoDuplicates(items)
    ensures NoDuplicates(OwnedUpTo(items, keys, n, k))
  {
    if n > 0 {
      OwnedDistinct(items, keys, n - 1, k);
      OwnedMembers(items, keys, n - 1, k);
      var rest := OwnedUpTo(items, keys, n - 1, k);
      forall x | 0 <= x < |rest| ensures rest[x] != items[n - 1] {
        assert rest[x] in rest;
        var j :| 0 <= j < n - 1 && keys[j] == Some(k) && items[j] == rest[x];
      }
    }
  }

  lemma SlicesOfDistinct<T>(s: seq<T>, a: nat, b: nat, c: nat, d: nat)
    requires a <= b <= |s| && c <= d <= |s|
    ensures (a == c && b == d) || (a == b && c == d) ==> s[a..b] == s[c..d]
    ensures (NoDuplicates(s) || a == c) && s[a..b] == s[c..d] ==> (a == c && b == d) || (a == b && c == d)
  {
    if s[a..b] == s[c..d] && a < b {
      assert s[a..b][0] == s[a] && s[c..d][0] == s[c];
    }
  }

  lemma WindowPerOwnerAt<T>(items: seq<T>, keys: seq<Option<int>>, base: Base, k: int)
    requires |items| == |keys|
    ensures |Window(base, items)| == |Window(base, keys)|
    ensures SameSlice(keys, base, k) ==> Owned(Window(base, items), Window(base, keys), k) == Window(base, Owned(items, keys, k))
    ensures base.offset == 0 || NoDuplicates(items) ==>
              Owned(Window(base, items), Window(base, keys), k) == Window(base, Owned(items, keys, k)) ==> SameSlice(keys, base, k)
  {
    var mine, n := Owned(items, keys, k), |keys|;
    OwnedWindow(items, keys, base, k);
    WindowIsSlice(base, mine);
    CountFacts(keys, From(base, n), k);
    if NoDuplicates(items) {
      OwnedDistinct(items, keys, n, k);
    }
    SlicesOfDistinct(mine, Count(keys, From(base, n), k), Count(keys, To(base, n), k), From(base, |mine|), To(base, |mine|));
  }

  /** An offset and a limit on a batch give every owner its own window if the window is harmless, and only then, unless
      they skip items that look like others. */
  lemma WindowPerOwnerIff<T>(items: seq<T>, keys: seq<Option<int>>, base: Base)
    requires |items| == |keys| && forall j | 0 <= j < |keys| :: keys[j].Some?
    ensures |Window(base, items)| == |Window(base, keys)|
    ensures Harmless(keys, base) ==>
              forall k :: Owned(Window(base, items), Window(base, keys), k) == Window(base, Owned(items, keys, k))
    ensures base.offset == 0 || NoDuplicates(items) ==>
              (forall k :: Owned(Window(base, items), Window(base, keys), k) == Window(base, Owned(items, keys, k))) ==>
                Harmless(keys, base)
  {
    WindowIsSlice(base, items);
    WindowIsSlice(base, keys);
    forall k
      ensures SameSlice(keys, base, k) ==> Owned(Window(base, items), Window(base, keys), k) == Window(base, Owned(items, keys, k))
      ensures base.offset == 0 || NoDuplicates(items) ==>
                Owned(Window(base, items), Window(base, keys), k) == Window(base, Owned(items, keys, k)) ==> SameSlice(keys, base, k)
    {
      WindowPerOwnerAt(items, keys, base, k);
    }
    SlicesIff(keys, base);
  }

  // ----------------------------------------------------------------------- one table

  /** The rows that a nested query for these keys finds, as scanned. */
  function Found(rows: seq<Row>, base: Base, columns: seq<Column>, c: Column, keys: set<int>): seq<Row> {
    ProjectAll(Select(rows, Narrow(base, c, keys)), columns)
  }

  /** The same without offset and limit. */
  function FoundAll(rows: seq<Row>, base: Base, columns: seq<Column>, c: Column, keys: set<int>): seq<Row> {
    ProjectAll(Scan(rows, base.preds + [In(c, keys)]), columns)
  }

  lemma FoundIsWindow(rows: seq<Row>, base: Base, columns: seq<Column>, c: Column, keys: set<int>)
    requires c in columns
    ensures Found(rows, base, columns, c, keys) == Window(base, FoundAll(rows, base, columns, c, keys))
    ensures Keys(Found(rows, base, columns, c, keys), c) == Window(base, Keys(FoundAll(rows, base, columns, c, keys), c))
  {
    var all := Scan(rows, base.preds + [In(c, keys)]);
    WindowIsSlice(base, all);
    WindowIsSlice(base, FoundAll(rows, base, columns, c, keys));
    WindowIsSlice(base, Keys(FoundAll(rows, base, columns, c, keys), c));
  }

  lemma FoundKeys(rows: seq<Row>, base: Base, columns: seq<Column>, c: Column, keys: set<int>)
    requires c in columns
    ensures var ks := Keys(FoundAll(rows, base, columns, c, keys), c);
            forall j | 0 <= j < |ks| :: ks[j].Some? && ks[j].value in keys
  {
    var all := Scan(rows, base.preds + [In(c, keys)]);
    ProjectedKeys(all, columns, c);
    ScanFacts(rows, base.preds + [In(c, keys)]);
    forall j | 0 <= j < |all| ensures Keys(all, c)[j].Some? && Keys(all, c)[j].value in keys {
      assert all[j] in all;
      HoldsNarrowed(base.preds, c, keys, all[j]);
    }
  }

  lemma FoundAlone(rows: seq<Row>, base: Base, columns: seq<Column>, c: Column, keys: set<int>, k: int)
    requires c in columns && k in keys
    ensures var all := FoundAll(rows, base, columns, c, keys);
            Found(rows, base, columns, c, {k}) == Window(base, Owned(all, Keys(all, c), k))
  {
    var all := Scan(rows, base.preds + [In(c, keys)]);
    ProjectedKeys(all, columns, c);
    ScanOwnedUpTo(rows, base.preds, c, keys, k);
    OwnedProjected(all, columns, Keys(all, c), k);
    FoundIsWindow(rows, base, columns, c, {k});
  }

  lemma FoundForOthers(rows: seq<Row>, base: Base, columns: seq<Column>, c: Column, keys: set<int>, k: int)
    requires c in columns && k !in keys
    ensures var all := FoundAll(rows, base, columns, c, keys);
            && |Window(base, all)| == |Window(base, Keys(all, c))|
            && Owned(Window(base, all), Window(base, Keys(all, c)), k) == Window(base, Owned(all, Keys(all, c), k))
  {
    var all := FoundAll(rows, base, columns, c, keys);
    FoundKeys(rows, base, columns, c, keys);
    OwnedWindow(all, Keys(all, c), base, k);
    CountFacts(Keys(all, c), |all|, k);
    WindowIsSlice(base, Owned(all, Keys(all, c), k));
  }

  /** An owner's rows out of the batch are what the nested query finds for that owner alone. */
  predicate OwnRows(rows: seq<Row>, base: Base, columns: seq<Column>, c: Column, keys: set<int>, k: int) {
    var found := Found(rows, base, columns, c, keys);
    Owned(found, Keys(found, c), k) == Found(rows, base, columns, c, {k})
  }

  /** Offset and limit on the rows of one table: every owner gets its own rows if the window is harmless, and only then,
      unless they skip rows that look like others. */
  lemma NestedLimitIff(rows: seq<Row>, base: Base, columns: seq<Column>, c: Column, keys: set<int>)
    requires c in columns
    ensures var all := FoundAll(rows, base, columns, c, keys);
            && (Harmless(Keys(all, c), base) ==> forall k | k in keys :: OwnRows(rows, base, columns, c, keys, k))
            && (base.offset == 0 || NoDuplicates(all) ==>
                  (forall k | k in keys :: OwnRows(rows, base, columns, c, keys, k)) ==> Harmless(Keys(all, c), base))
  {
    var all := FoundAll(rows, base, columns, c, keys);
    var ks := Keys(all, c);
    FoundIsWindow(rows, base, columns, c, keys);
    FoundKeys(rows, base, columns, c, keys);
    WindowPerOwnerIff(all, ks, base);
    forall k
      ensures k in keys ==> (OwnRows(rows, base, columns, c, keys, k) <==>
                             Owned(Window(base, all), Window(base, ks), k) == Window(base, Owned(all, ks, k)))
      ensures k !in keys ==> Owned(Window(base, all), Window(base, ks), k) == Window(base, Owned(all, ks, k))
    {
      if k in keys {
        FoundAlone(rows, base, columns, c, keys, k);
      } else {
        FoundForOthers(rows, base, columns, c, keys, k);
      }
    }
  }

  // -------------------------------------------------------------- the loader's edges

  lemma {:induction false} OwnedAll<T>(items: seq<T>, keys: seq<Option<int>>, n: nat, k: int)
    requires n <= |items| == |keys| && forall j | 0 <= j < n :: keys[j] == Some(k)
    ensures OwnedUpTo(items, keys, n, k) == items[..n]
  {
    if n > 0 {
      OwnedAll(items, keys, n - 1, k);
    }
  }

  lemma FoundAloneOwned(rows: seq<Row>, base: Base, columns: seq<Column>, c: Column, k: int)
    requires c in columns
    ensures var found := Found(rows, base, columns, c, {k}); Owned(found, Keys(found, c), k) == found
  {
    var found := Found(rows, base, columns, c, {k});
    FoundIsWindow(rows, base, columns, c, {k});
    FoundKeys(rows, base, columns, c, {k});
    WindowIsSlice(base, Keys(FoundAll(rows, base, columns, c, {k}), c));
    OwnedAll(found, Keys(found, c), |found|, k);
  }

  /** What account `i` of the batch gets from a one-to-many query. */
  function Share(rows: seq<Row>, base: Base, columns: seq<Column>, c: Column, nodes: seq<Row>, i: nat): seq<Row>
    requires i < |nodes|
  {
    var found := Found(rows, base, columns, c, PlainKeySet(nodes, ID));
    Owned(found, Keys(found, c), Key(nodes[i], ID))
  }

  /** The rows of the whole batch, with their owners, before offset and limit. */
  function Owners(rows: seq<Row>, base: Base, columns: seq<Column>, c: Column, nodes: seq<Row>): seq<Option<int>> {
    Keys(FoundAll(rows, base, columns, c, PlainKeySet(nodes, ID)), c)
  }

  ghost predicate SharesAgree(rows: seq<Row>, base: Base, columns: seq<Column>, c: Column, nodes: seq<Row>) {
    forall i | 0 <= i < |nodes| :: Share(rows, base, columns, c, nodes, i) == Share(rows, base, columns, c, [nodes[i]], 0)
  }

  lemma SharesIff(rows: seq<Row>, base: Base, columns: seq<Column>, c: Column, nodes: seq<Row>)
    requires c in columns
    ensures Harmless(Owners(rows, base, columns, c, nodes), base) ==> SharesAgree(rows, base, columns, c, nodes)
    ensures base.offset == 0 || NoDuplicates(FoundAll(rows, base, columns, c, PlainKeySet(nodes, ID))) ==>
              SharesAgree(rows, base, columns, c, nodes) ==> Harmless(Owners(rows, base, columns, c, nodes), base)
  {
    var keys := PlainKeySet(nodes, ID);
    NestedLimitIff(rows, base, columns, c, keys);
    forall i | 0 <= i < |nodes|
      ensures Key(nodes[i], ID) in keys
      ensures Share(rows, base, columns, c, nodes, i) == Share(rows, base, columns, c, [nodes[i]], 0)
         <==> OwnRows(rows, base, columns, c, keys, Key(nodes[i], ID))
    {
      assert nodes[i] in nodes;
      assert PlainKeySet([nodes[i]], ID) == {Key(nodes[i], ID)};
      FoundAloneOwned(rows, base, columns, c, Key(nodes[i], ID));
    }
    forall k | k in keys ensures exists i | 0 <= i < |nodes| :: Key(nodes[i], ID) == k {
      var r :| r in nodes && Key(r, ID) == k;
      var i :| 0 <= i < |nodes| && nodes[i] == r;
    }
  }

  lemma FoundDistinct(rows: seq<Row>, base: Base, columns: seq<Column>, c: Column, keys: set<int>)
    requires DistinctIds(rows) && ID in columns
    ensures NoDuplicates(FoundAll(rows, base, columns, c, keys))
  {
    ScanFacts(rows, base.preds + [In(c, keys)]);
    ProjectedDistinct(Scan(rows, base.preds + [In(c, keys)]), columns);
    assert DistinctIds(FoundAll(rows, base, columns, c, keys));
  }

  function UsageLogBase(q: AccountQuery): Base
    requires q.withUsageLogs.Some?
  {
    ForceColumn(q.withUsageLogs.value, AccountID)
  }

  /** Usage logs: every account gets what it would get alone, exactly when the window is harmless. */
  lemma UsageLogsLimitIff(db: Db, q: AccountQuery, nodes: seq<Row>)
    requires q.withUsageLogs.Some? && forall i | 0 <= i < |nodes| :: HoldsId(nodes, i)
    requires q.withUsageLogs.value.offset == 0 || DistinctIds(db.usageLogs)
    ensures var base := UsageLogBase(q);
            (forall i | 0 <= i < |nodes| :: UsageLogsOf(db, q, nodes, i) == UsageLogsOf(db, q, [nodes[i]], 0))
            <==> Harmless(Owners(db.usageLogs, base, ColumnsWithId(UsageLogTable(db), base), AccountID, nodes), base)
  {
    var base := UsageLogBase(q);
    var columns := ColumnsWithId(UsageLogTable(db), base);
    ForcedColumn(q.withUsageLogs.value, AccountID);
    if base.offset > 0 {
      FoundDistinct(db.usageLogs, base, columns, AccountID, PlainKeySet(nodes, ID));
    }
    SharesIff(db.usageLogs, base, columns, AccountID, nodes);
    forall i | 0 <= i < |nodes|
      ensures UsageLogsOf(db, q, nodes, i) == Share(db.usageLogs, base, columns, AccountID, nodes, i)
      ensures UsageLogsOf(db, q, [nodes[i]], 0) == Share(db.usageLogs, base, columns, AccountID, [nodes[i]], 0)
    {
      UsageLogsShare(db, q, nodes, i);
      UsageLogsShare(db, q, [nodes[i]], 0);
    }
  }

  lemma UsageLogsShare(db: Db, q: AccountQuery, nodes: seq<Row>, i: nat)
    requires q.withUsageLogs.Some? && i < |nodes| && HoldsId(nodes, i)
    ensures UsageLogsOf(db, q, nodes, i)
         == Share(db.usageLogs, UsageLogBase(q), ColumnsWithId(UsageLogTable(db), UsageLogBase(q)), AccountID, nodes, i)
  {
  }

  /** The rows behind loaded accounts, whatever their own edges. */
  function AccountValues(ts: seq<AccountTree>): seq<Row> {
    seq(|ts|, i requires 0 <= i < |ts| => ts[i].values)
  }

  function AccountGroupValues(ts: seq<AccountGroupTree>): seq<Row> {
    seq(|ts|, i requires 0 <= i < |ts| => ts[i].values)
  }

  function ChildrenBase(q: AccountQuery): Base
    requires q.withChildren.Some?
  {
    ForceColumn(q.withChildren.value.base, ParentAccountID)
  }

  function ChildrenColumns(db: Db, q: AccountQuery): seq<Column>
    requires q.withChildren.Some?
  {
    AccountColumns(db, q.withChildren.value.(base := ChildrenBase(q)))
  }

  lemma ChildrenShare(db: Db, q: AccountQuery, nodes: seq<Row>, i: nat)
    requires q.withChildren.Some? && i < |nodes| && HoldsId(nodes, i)
    ensures AccountValues(ChildrenOf(db, q, nodes, i))
         == Share(db.accounts, ChildrenBase(q), ChildrenColumns(db, q), ParentAccountID, nodes, i)
  {
    var p := ChildrenQuery(q, PlainKeySet(nodes, ID));
    var found, rows := BatchAccounts(db, p), AccountNodes(db, p);
    forall j | 0 <= j < |found| ensures found[j].values == rows[j] { BatchAt(db, p, j); }
    assert AccountKeys(found, ParentAccountID) == Keys(rows, ParentAccountID);
    assert AccountColumns(db, p) == ChildrenColumns(db, q);
    assert rows == Found(db.accounts, ChildrenBase(q), ChildrenColumns(db, q), ParentAccountID, PlainKeySet(nodes, ID));
    OwnedPositions(found, rows, Keys(rows, ParentAccountID), |rows|, Key(nodes[i], ID));
  }

  /** Children: every account gets the rows it would get alone, exactly when the window is harmless. */
  lemma ChildrenLimitIff(db: Db, q: AccountQuery, nodes: seq<Row>)
    requires ValidDb(db) && q.withChildren.Some? && forall i | 0 <= i < |nodes| :: HoldsId(nodes, i)
    ensures (forall i | 0 <= i < |nodes| ::
               AccountValues(ChildrenOf(db, q, nodes, i)) == AccountValues(ChildrenOf(db, q, [nodes[i]], 0)))
            <==> Harmless(Owners(db.accounts, ChildrenBase(q), ChildrenColumns(db, q), ParentAccountID, nodes), ChildrenBase(q))
  {
    var base, columns := ChildrenBase(q), ChildrenColumns(db, q);
    ForcedColumn(q.withChildren.value.base, ParentAccountID);
    FoundDistinct(db.accounts, base, columns, ParentAccountID, PlainKeySet(nodes, ID));
    SharesIff(db.accounts, base, columns, ParentAccountID, nodes);
    forall i | 0 <= i < |nodes|
      ensures AccountValues(ChildrenOf(db, q, nodes, i)) == Share(db.accounts, base, columns, ParentAccountID, nodes, i)
      ensures AccountValues(ChildrenOf(db, q, [nodes[i]], 0)) == Share(db.accounts, base, columns, ParentAccountID, [nodes[i]], 0)
    {
      ChildrenShare(db, q, nodes, i);
      ChildrenShare(db, q, [nodes[i]], 0);
    }
  }

  function AccountGroupsBase(q: AccountQuery): Base
    requires q.withAccountGroups.Some?
  {
    ForceColumn(q.withAccountGroups.value.base, AccountID)
  }

  function AccountGroupsColumns(q: AccountQuery): seq<Column>
    requires q.withAccountGroups.Some?
  {
    AccountGroupColumns(q.withAccountGroups.value.(base := AccountGroupsBase(q)))
  }

  lemma AccountGroupsShare(db: Db, q: AccountQuery, nodes: seq<Row>, i: nat)
    requires q.withAccountGroups.Some? && i < |nodes| && HoldsId(nodes, i)
    ensures AccountGroupValues(AccountGroupsOf(db, q, nodes, i))
         == Share(db.accountGroups, AccountGroupsBase(q), AccountGroupsColumns(q), AccountID, nodes, i)
  {
    var p := AccountGroupsQuery(q, PlainKeySet(nodes, ID));
    var found, rows := BatchAccountGroups(db, p), AccountGroupNodes(db, p);
    forall j | 0 <= j < |found| ensures found[j].values == rows[j] { BatchGroupAt(db, p, j); }
    assert AccountGroupKeys(found, AccountID) == Keys(rows, AccountID);
    assert AccountGroupColumns(p) == AccountGroupsColumns(q);
    assert rows == Found(db.accountGroups, AccountGroupsBase(q), AccountGroupsColumns(q), AccountID, PlainKeySet(nodes, ID));
    OwnedPositions(found, rows, Keys(rows, AccountID), |rows|, Key(nodes[i], ID));
  }

  ghost predicate AccountGroupsAlike(db: Db, q: AccountQuery, nodes: seq<Row>)
    requires q.withAccountGroups.Some? && forall i | 0 <= i < |nodes| :: HoldsId(nodes, i)
  {
    forall i | 0 <= i < |nodes| ::
      AccountGroupValues(AccountGroupsOf(db, q, nodes, i)) == AccountGroupValues(AccountGroupsOf(db, q, [nodes[i]], 0))
  }

  /** Account groups likewise. Behind an offset, and only there, rows that the selected columns do not tell apart can
      stand in for each other. */
  lemma AccountGroupsLimitIff(db: Db, q: AccountQuery, nodes: seq<Row>)
    requires q.withAccountGroups.Some? && forall i | 0 <= i < |nodes| :: HoldsId(nodes, i)
    ensures var base, columns := AccountGroupsBase(q), AccountGroupsColumns(q);
            && (Harmless(Owners(db.accountGroups, base, columns, AccountID, nodes), base) ==> AccountGroupsAlike(db, q, nodes))
            && (base.offset == 0 || NoDuplicates(FoundAll(db.accountGroups, base, columns, AccountID, PlainKeySet(nodes, ID))) ==>
                  AccountGroupsAlike(db, q, nodes) ==> Harmless(Owners(db.accountGroups, base, columns, AccountID, nodes), base))
  {
    var base, columns := AccountGroupsBase(q), AccountGroupsColumns(q);
    ForcedColumn(q.withAccountGroups.value.base, AccountID);
    SharesIff(db.accountGroups, base, columns, AccountID, nodes);
    forall i | 0 <= i < |nodes|
      ensures AccountGroupValues(AccountGroupsOf(db, q, nodes, i)) == Share(db.accountGroups, base, columns, AccountID, nodes, i)
      ensures AccountGroupValues(AccountGroupsOf(db, q, [nodes[i]], 0)) == Share(db.accountGroups, base, columns, AccountID, [nodes[i]], 0)
    {
      AccountGroupsShare(db, q, nodes, i);
      AccountGroupsShare(db, q, [nodes[i]], 0);
    }
  }

  function LogRow(id: int, account: int): Row {
    map[ID := Int(id), AccountID := Int(account)]
  }

  function TwoAccounts(): Db {
    Db([map[ID := Int(1)], map[ID := Int(2)]], [], [], [], [LogRow(7, 1), LogRow(8, 2)], [], [], [], [], [])
  }

  function OneLogEach(): AccountQuery {
    AccountQuery(Base([], [], 0, None), None, None, None, None, Some(OneLog()), None)
  }

  lemma LogRowProjected(id: int, account: int)
    ensures ProjectAll([LogRow(id, account)], [ID, AccountID]) == [LogRow(id, account)]
    ensures Satisfies(In(AccountID, {1, 2}), LogRow(id, account)) <==> account == 1 || account == 2
    ensures Satisfies(In(AccountID, {2}), LogRow(id, account)) <==> account == 2
  {
    var r := LogRow(id, account);
    assert At(r, ID) == Int(id) && At(r, AccountID) == Int(account);
    assert Project(r, [ID, AccountID]) == r;
  }

  function OneLog(): Base {
    Base([], [], 0, Some(1))
  }

  function FirstLog(keys: set<int>): Row {
    if 1 in keys then LogRow(7, 1) else LogRow(8, 2)
  }

  lemma LogsSelected(keys: set<int>)
    requires keys == {1, 2} || keys == {2}
    ensures Select(TwoAccounts().usageLogs, Narrow(OneLog(), AccountID, keys)) == [FirstLog(keys)]
  {
    var x, y := LogRow(7, 1), LogRow(8, 2);
    LogRowProjected(7, 1);
    LogRowProjected(8, 2);
    TwoLogs(x, y, keys);
    assert [x] + [y] == [x, y] && [] + [y] == [y] && [x, y][0..][..1] == [x] && [y][0..] == [y];
  }

  lemma LogsFound(nodes: seq<Row>, keys: set<int>)
    requires PlainKeySet(nodes, ID) == keys && (keys == {1, 2} || keys == {2})
    ensures FoundUsageLogs(TwoAccounts(), OneLogEach(), nodes) == [FirstLog(keys)]
  {
    LogsSelected(keys);
    LogRowProjected(7, 1);
    LogRowProjected(8, 2);
    assert ColumnsWithId(UsageLogTable(TwoAccounts()), Narrow(OneLog(), AccountID, keys)) == [ID, AccountID];
  }

  lemma OneLogFound(db: Db, q: AccountQuery, nodes: seq<Row>, i: nat, r: Row)
    requires q.withUsageLogs.Some? && i < |nodes| && HoldsId(nodes, i) && FoundUsageLogs(db, q, nodes) == [r]
    ensures UsageLogsOf(db, q, nodes, i) == if IntAt(r, AccountID) == Some(Key(nodes[i], ID)) then [r] else []
  {
    assert Keys([r], AccountID) == [IntAt(r, AccountID)];
    assert OwnedUpTo([r], [IntAt(r, AccountID)], 0, Key(nodes[i], ID)) == [];
  }

  lemma TwoAccountKeys()
    ensures var nodes := TwoAccounts().accounts;
            && Key(nodes[0], ID) == 1 && Key(nodes[1], ID) == 2
            && PlainKeySet(nodes, ID) == {1, 2} && PlainKeySet([nodes[1]], ID) == {2}
  {
    var nodes := TwoAccounts().accounts;
    assert Key(nodes[0], ID) == 1 && Key(nodes[1], ID) == 2 && nodes[0] in nodes && nodes[1] in nodes && nodes[1] in [nodes[1]];
  }

  /** Two accounts, one usage log each, and a limit of one: in the batch the second account gets nothing. */
  lemma NestedLimitStarves()
    ensures var nodes := TwoAccounts().accounts;
            && UsageLogsOf(TwoAccounts(), OneLogEach(), nodes, 1) == []
            && UsageLogsOf(TwoAccounts(), OneLogEach(), [nodes[1]], 0) == [LogRow(8, 2)]
  {
    var nodes := TwoAccounts().accounts;
    TwoAccountKeys();
    LogsFound(nodes, {1, 2});
    LogsFound([nodes[1]], {2});
    OneLogFound(TwoAccounts(), OneLogEach(), nodes, 1, LogRow(7, 1));
    OneLogFound(TwoAccounts(), OneLogEach(), [nodes[1]], 0, LogRow(8, 2));
  }

  lemma TwoLogs(x: Row, y: Row, keys: set<int>)
    ensures Scan([x, y], [] + [In(AccountID, keys)])
         == (if Satisfies(In(AccountID, keys), x) then [x] else []) + (if Satisfies(In(AccountID, keys), y) then [y] else [])
  {
    var preds := [] + [In(AccountID, keys)];
    assert [x, y][..1] == [x] && [x][..0] == [];
    HoldsNarrowed([], AccountID, keys, x);
    HoldsNarrowed([], AccountID, keys, y);
    assert Scan([x], preds) == if Satisfies(In(AccountID, keys), x) then [x] else [];
  }

  // ------------------------------------------------------------------- many-to-one

  lemma {:induction false} OwnedAtMostOnce(rows: seq<Row>, n: nat, k: int)
    requires n <= |rows| && DistinctIds(rows)
    ensures |OwnedUpTo(rows, Keys(rows, ID), n, k)| <= 1
    ensures |OwnedUpTo(rows, Keys(rows, ID), n, k)| == 1 ==> exists j | 0 <= j < n :: Keys(rows, ID)[j] == Some(k)
  {
    if n > 0 {
      OwnedAtMostOnce(rows, n - 1, k);
      if Keys(rows, ID)[n - 1] == Some(k) {
        assert forall j | 0 <= j < n - 1 :: Key(rows[j], ID) != Key(rows[n - 1], ID);
      }
    }
  }

  lemma WindowDistinct(rows: seq<Row>, base: Base, columns: seq<Column>, keys: set<int>)
    requires DistinctIds(rows) && ID in columns
    ensures DistinctIds(Found(rows, base, columns, ID, keys))
  {
    ScanFacts(rows, base.preds + [In(ID, keys)]);
    WindowIsSlice(base, Scan(rows, base.preds + [In(ID, keys)]));
    ProjectedDistinct(Select(rows, Narrow(base, ID, keys)), columns);
  }

  /** The row that a foreign key gets out of the batch is the one it gets alone, exactly when its rows are. */
  lemma LatestIsOwn(rows: seq<Row>, base: Base, columns: seq<Column>, keys: set<int>, k: int)
    requires DistinctIds(rows) && ID in columns
    ensures var found, alone := Found(rows, base, columns, ID, keys), Found(rows, base, columns, ID, {k});
            Latest(found, Keys(found, ID), Some(k)) == Latest(alone, Keys(alone, ID), Some(k))
            <==> OwnRows(rows, base, columns, ID, keys, k)
  {
    var found, alone := Found(rows, base, columns, ID, keys), Found(rows, base, columns, ID, {k});
    WindowDistinct(rows, base, columns, keys);
    WindowDistinct(rows, base, columns, {k});
    OwnedAtMostOnce(found, |found|, k);
    OwnedAtMostOnce(alone, |alone|, k);
    FoundAloneOwned(rows, base, columns, ID, k);
    LatestIsLastOwned(found, Keys(found, ID), |found|, k, None);
    LatestIsLastOwned(alone, Keys(alone, ID), |alone|, k, None);
  }

  /** What a foreign key gets out of the batch of the keys. */
  function Target(rows: seq<Row>, base: Base, columns: seq<Column>, keys: set<int>, fk: Option<int>): Option<Row> {
    var found := Found(rows, base, columns, ID, keys);
    Latest(found, Keys(found, ID), fk)
  }

  function Only(fk: Option<int>): set<int> {
    if fk.Some? then {fk.value} else {}
  }

  lemma TargetIsOwn(rows: seq<Row>, base: Base, columns: seq<Column>, keys: set<int>, fk: Option<int>)
    requires DistinctIds(rows) && ID in columns
    ensures Target(rows, base, columns, keys, fk) == Target(rows, base, columns, Only(fk), fk)
       <==> (fk.Some? ==> OwnRows(rows, base, columns, ID, keys, fk.value))
  {
    var found, alone := Found(rows, base, columns, ID, keys), Found(rows, base, columns, ID, Only(fk));
    if fk.Some? {
      LatestIsOwn(rows, base, columns, keys, fk.value);
    } else {
      LatestOfMissing(found, Keys(found, ID), |found|);
      LatestOfMissing(alone, Keys(alone, ID), |alone|);
    }
  }

  /** The IDs that the batch of the keys finds, before offset and limit. */
  function Targets(rows: seq<Row>, base: Base, columns: seq<Column>, keys: set<int>): seq<Option<int>> {
    Keys(FoundAll(rows, base, columns, ID, keys), ID)
  }

  lemma TargetsIff(rows: seq<Row>, base: Base, columns: seq<Column>, keys: set<int>, fks: seq<Option<int>>)
    requires DistinctIds(rows) && ID in columns && forall k :: k in keys <==> Some(k) in fks
    ensures (forall i | 0 <= i < |fks| ::
               Target(rows, base, columns, keys, fks[i]) == Target(rows, base, columns, Only(fks[i]), fks[i]))
            <==> Harmless(Targets(rows, base, columns, keys), base)
  {
    FoundDistinct(rows, base, columns, ID, keys);
    NestedLimitIff(rows, base, columns, ID, keys);
    forall i | 0 <= i < |fks|
      ensures fks[i].Some? ==> fks[i].value in keys
      ensures Target(rows, base, columns, keys, fks[i]) == Target(rows, base, columns, Only(fks[i]), fks[i])
         <==> (fks[i].Some? ==> OwnRows(rows, base, columns, ID, keys, fks[i].value))
    {
      assert fks[i] in fks;
      TargetIsOwn(rows, base, columns, keys, fks[i]);
    }
    forall k | k in keys ensures exists i | 0 <= i < |fks| :: fks[i] == Some(k) {
      assert Some(k) in fks;
    }
  }

  lemma NodeTargets(nodes: seq<Row>, c: Column)
    ensures forall k :: k in KeySet(nodes, c) <==> Some(k) in Keys(nodes, c)
    ensures forall i | 0 <= i < |nodes| :: KeySet([nodes[i]], c) == Only(IntAt(nodes[i], c))
  {
    forall k ensures k in KeySet(nodes, c) <==> Some(k) in Keys(nodes, c) {
      if k in KeySet(nodes, c) {
        var r :| r in nodes && IntAt(r, c).Some? && IntAt(r, c).value == k;
        var i :| 0 <= i < |nodes| && nodes[i] == r;
        assert Keys(nodes, c)[i] == Some(k);
      }
      if Some(k) in Keys(nodes, c) {
        var i :| 0 <= i < |nodes| && Keys(nodes, c)[i] == Some(k);
        assert nodes[i] in nodes;
      }
    }
  }

  /** Proxies: every account gets the proxy it would get alone, exactly when the window is harmless. */
  lemma ProxyLimitIff(db: Db, q: AccountQuery, nodes: seq<Row>)
    requires q.withProxy.Some? && DistinctIds(db.proxies)
    ensures var base := q.withProxy.value;
            (forall i | 0 <= i < |nodes| :: ProxyOf(db, q, nodes, i) == ProxyOf(db, q, [nodes[i]], 0))
            <==> Harmless(Targets(db.proxies, base, ColumnsWithId(ProxyTable(db), base), KeySet(nodes, ProxyID)), base)
  {
    var base := q.withProxy.value;
    var columns, keys := ColumnsWithId(ProxyTable(db), base), KeySet(nodes, ProxyID);
    NodeTargets(nodes, ProxyID);
    TargetsIff(db.proxies, base, columns, keys, Keys(nodes, ProxyID));
    forall i | 0 <= i < |nodes|
      ensures ProxyOf(db, q, nodes, i) == Target(db.proxies, base, columns, keys, Keys(nodes, ProxyID)[i])
      ensures ProxyOf(db, q, [nodes[i]], 0) == Target(db.proxies, base, columns, Only(Keys(nodes, ProxyID)[i]), Keys(nodes, ProxyID)[i])
    {
    }
  }

  function RowOf(t: Option<AccountTree>): Option<Row> {
    if t.Some? then Some(t.value.values) else None
  }

  lemma {:induction false} LatestValues(ts: seq<AccountTree>, rows: seq<Row>, keys: seq<Option<int>>, n: nat, fk: Option<int>)
    requires n <= |ts| == |rows| == |keys| && forall j | 0 <= j < |ts| :: ts[j].values == rows[j]
    ensures RowOf(LatestUpTo(ts, keys, n, fk, None)) == LatestUpTo(rows, keys, n, fk, None)
  {
    if n > 0 {
      LatestValues(ts, rows, keys, n - 1, fk);
    }
  }

  /** The row behind what a foreign key gets out of a batch of accounts. */
  lemma AccountTarget(db: Db, p: AccountQuery, keys: set<int>, fk: Option<int>)
    ensures var found := BatchAccounts(db, p.(base := Narrow(p.base, ID, keys)));
            RowOf(Latest(found, AccountKeys(found, ID), fk)) == Target(db.accounts, p.base, AccountColumns(db, p), keys, fk)
  {
    var q := p.(base := Narrow(p.base, ID, keys));
    var found, rows := BatchAccounts(db, q), AccountNodes(db, q);
    forall j | 0 <= j < |found| ensures found[j].values == rows[j] { BatchAt(db, q, j); }
    assert AccountKeys(found, ID) == Keys(rows, ID);
    assert AccountColumns(db, q) == AccountColumns(db, p);
    LatestValues(found, rows, Keys(rows, ID), |rows|, fk);
  }

  /** Parents: every account gets the row it would get alone, exactly when the window is harmless. */
  lemma ParentLimitIff(db: Db, q: AccountQuery, nodes: seq<Row>)
    requires ValidDb(db) && q.withParent.Some?
    ensures var p := q.withParent.value;
            (forall i | 0 <= i < |nodes| :: RowOf(ParentOf(db, q, nodes, i)) == RowOf(ParentOf(db, q, [nodes[i]], 0)))
            <==> Harmless(Targets(db.accounts, p.base, AccountColumns(db, p), KeySet(nodes, ParentAccountID)), p.base)
  {
    var p, fks, keys := q.withParent.value, Keys(nodes, ParentAccountID), KeySet(nodes, ParentAccountID);
    var columns := AccountColumns(db, p);
    NodeTargets(nodes, ParentAccountID);
    TargetsIff(db.accounts, p.base, columns, keys, fks);
    forall i | 0 <= i < |nodes|
      ensures RowOf(ParentOf(db, q, nodes, i)) == Target(db.accounts, p.base, columns, keys, fks[i])
      ensures RowOf(ParentOf(db, q, [nodes[i]], 0)) == Target(db.accounts, p.base, columns, Only(fks[i]), fks[i])
    {
      AccountTarget(db, p, keys, fks[i]);
      AccountTarget(db, p, Only(fks[i]), fks[i]);
    }
  }

  lemma PlainTargets(nodes: seq<Row>, c: Column)
    ensures forall k :: k in PlainKeySet(nodes, c) <==> Some(k) in PlainKeys(nodes, c)
    ensures forall i | 0 <= i < |nodes| :: PlainKeySet([nodes[i]], c) == {Key(nodes[i], c)}
  {
    forall k ensures k in PlainKeySet(nodes, c) <==> Some(k) in PlainKeys(nodes, c) {
      if k in PlainKeySet(nodes, c) {
        var r :| r in nodes && Key(r, c) == k;
        var i :| 0 <= i < |nodes| && nodes[i] == r;
        assert PlainKeys(nodes, c)[i] == Some(k);
      }
      if Some(k) in PlainKeys(nodes, c) {
        var i :| 0 <= i < |nodes| && PlainKeys(nodes, c)[i] == Some(k);
        assert nodes[i] in nodes;
      }
    }
  }

  /** The groups of account-group rows, likewise. */
  lemma GroupLimitIff(db: Db, q: AccountGroupQuery, nodes: seq<Row>)
    requires ValidDb(db) && q.withGroup.Some?
    ensures var base := q.withGroup.value;
            (forall i | 0 <= i < |nodes| :: GroupOf(db, q, nodes, i) == GroupOf(db, q, [nodes[i]], 0))
            <==> Harmless(Targets(db.groups, base, ColumnsWithId(GroupTable(db), base), PlainKeySet(nodes, GroupID)), base)
  {
    var base := q.withGroup.value;
    var columns, keys, fks := ColumnsWithId(GroupTable(db), base), PlainKeySet(nodes, GroupID), PlainKeys(nodes, GroupID);
    PlainTargets(nodes, GroupID);
    TargetsIff(db.groups, base, columns, keys, fks);
    forall i | 0 <= i < |nodes|
      ensures GroupOf(db, q, nodes, i) == Target(db.groups, base, columns, keys, fks[i])
      ensures GroupOf(db, q, [nodes[i]], 0) == Target(db.groups, base, columns, Only(fks[i]), fks[i])
    {
    }
  }

  /** The accounts of account-group rows, likewise. */
  lemma OwnerLimitIff(db: Db, q: AccountGroupQuery, nodes: seq<Row>)
    requires ValidDb(db) && q.withAccount.Some?
    ensures var p := q.withAccount.value;
            (forall i | 0 <= i < |nodes| :: RowOf(OwnerOf(db, q, nodes, i)) == RowOf(OwnerOf(db, q, [nodes[i]], 0)))
            <==> Harmless(Targets(db.accounts, p.base, AccountColumns(db, p), PlainKeySet(nodes, AccountID)), p.base)
  {
    var p, fks, keys := q.withAccount.value, PlainKeys(nodes, AccountID), PlainKeySet(nodes, AccountID);
    var columns := AccountColumns(db, p);
    PlainTargets(nodes, AccountID);
    TargetsIff(db.accounts, p.base, columns, keys, fks);
    forall i | 0 <= i < |nodes|
      ensures RowOf(OwnerOf(db, q, nodes, i)) == Target(db.accounts, p.base, columns, keys, fks[i])
      ensures RowOf(OwnerOf(db, q, [nodes[i]], 0)) == Target(db.accounts, p.base, columns, Only(fks[i]), fks[i])
    {
      AccountTarget(db, p, keys, fks[i]);
      AccountTarget(db, p, Only(fks[i]), fks[i]);
    }
  }
}
