/** Many-to-many loading: the order of an account's groups, and an offset or a limit on the joined query. */
module EagerJoins {
  import opened Basics
  import opened EntSchema
  import opened EagerSpec
  import opened EagerTheorems
  import opened EagerProperties
  import opened EagerLimits

  // ------------------------------------------------------------- the order of groups

  /** Some joined row carries group `g` before any carries group `h`. */
  predicate MentionedBefore(js: seq<(Row, Row)>, g: int, h: int) {
    exists x | 0 <= x < |js| :: Key(js[x].1, ID) == g && !SeenUpTo(js, x + 1, h)
  }

  lemma {:induction false} FirstAtFacts(js: seq<(Row, Row)>, n: nat, g: int)
    requires n <= |js| && SeenUpTo(js, n, g)
    ensures FirstAt(js, n, g) < n && Key(js[FirstAt(js, n, g)].1, ID) == g && !SeenUpTo(js, FirstAt(js, n, g), g)
  {
    if SeenUpTo(js, n - 1, g) {
      FirstAtFacts(js, n - 1, g);
    }
  }

  lemma BeforeIsFirst(js: seq<(Row, Row)>, g: int, h: int)
    requires SeenUpTo(js, |js|, g) && SeenUpTo(js, |js|, h)
    ensures MentionedBefore(js, g, h) <==> FirstAt(js, |js|, g) < FirstAt(js, |js|, h)
  {
    var x, y := FirstAt(js, |js|, g), FirstAt(js, |js|, h);
    FirstAtFacts(js, |js|, g);
    FirstAtFacts(js, |js|, h);
    if x < y {
      assert !SeenUpTo(js, x + 1, h);
    }
    if z :| 0 <= z < |js| && Key(js[z].1, ID) == g && !SeenUpTo(js, z + 1, h) {
      assert x <= z < y by {
        assert !(z < x);
      }
    }
  }

  /** Groups in the order in which joined rows mention them first. */
  ghost predicate InOrder(js: seq<(Row, Row)>, groups: seq<Row>) {
    forall x, y | 0 <= x < y < |groups| ::
      MentionedBefore(js, Key(groups[x], ID), Key(groups[y], ID)) && !MentionedBefore(js, Key(groups[y], ID), Key(groups[x], ID))
  }

  lemma FirstSeenInOrder(js: seq<(Row, Row)>, groups: seq<Row>)
    requires FirstSeenOrder(js, groups)
    ensures InOrder(js, groups)
  {
    forall x, y | 0 <= x < y < |groups|
      ensures MentionedBefore(js, Key(groups[x], ID), Key(groups[y], ID))
      ensures !MentionedBefore(js, Key(groups[y], ID), Key(groups[x], ID))
    {
      BeforeIsFirst(js, Key(groups[x], ID), Key(groups[y], ID));
      BeforeIsFirst(js, Key(groups[y], ID), Key(groups[x], ID));
    }
  }

  /** On the groups of `a`, two sequences of joined rows have the same order of first mention. */
  ghost predicate SameOrder(js: seq<(Row, Row)>, ks: seq<(Row, Row)>, a: seq<Row>) {
    forall g, h | g in a && h in a :: MentionedBefore(js, Key(g, ID), Key(h, ID)) <==> MentionedBefore(ks, Key(g, ID), Key(h, ID))
  }

  lemma NotBeforeItself(js: seq<(Row, Row)>, g: int)
    ensures !MentionedBefore(js, g, g)
  {
  }

  lemma SameListSameOrder(js: seq<(Row, Row)>, ks: seq<(Row, Row)>, a: seq<Row>)
    requires InOrder(js, a) && InOrder(ks, a)
    ensures SameOrder(js, ks, a)
  {
    forall g, h | g in a && h in a
      ensures MentionedBefore(js, Key(g, ID), Key(h, ID)) <==> MentionedBefore(ks, Key(g, ID), Key(h, ID))
    {
      var x :| 0 <= x < |a| && a[x] == g;
      var y :| 0 <= y < |a| && a[y] == h;
      if x == y {
        NotBeforeItself(js, Key(g, ID));
        NotBeforeItself(ks, Key(g, ID));
      }
    }
  }

  lemma SameHead(js: seq<(Row, Row)>, a: seq<Row>, b: seq<Row>)
    requires InOrder(js, a) && InOrder(js, b) && a != [] && b != [] && b[0] in a && a[0] in b
    ensures a[0] == b[0]
  {
    var g, h := Key(a[0], ID), Key(b[0], ID);
    var x :| 0 <= x < |a| && a[x] == b[0];
    assert x > 0 ==> MentionedBefore(js, g, h);
    var y :| 0 <= y < |b| && b[y] == a[0];
    assert y > 0 ==> !MentionedBefore(js, g, h);
  }

  lemma InOrderTail(js: seq<(Row, Row)>, a: seq<Row>)
    requires InOrder(js, a) && a != []
    ensures InOrder(js, a[1..]) && multiset(a[1..]) == multiset(a) - multiset{a[0]}
  {
    assert a == [a[0]] + a[1..];
    forall x, y | 0 <= x < y < |a[1..]|
      ensures MentionedBefore(js, Key(a[1..][x], ID), Key(a[1..][y], ID)) && !MentionedBefore(js, Key(a[1..][y], ID), Key(a[1..][x], ID))
    {
      assert a[1..][x] == a[x + 1] && a[1..][y] == a[y + 1];
    }
  }

  /** The order of first mention determines the list. */
  lemma {:induction false} OrderDetermines(js: seq<(Row, Row)>, a: seq<Row>, b: seq<Row>)
    requires InOrder(js, a) && InOrder(js, b) && multiset(a) == multiset(b)
    ensures a == b
  {
    assert |multiset(a)| == |a| && |multiset(b)| == |b|;
    if a != [] {
      assert a[0] in multiset(b) && b[0] in multiset(a);
      SameHead(js, a, b);
      InOrderTail(js, a);
      InOrderTail(js, b);
      OrderDetermines(js, a[1..], b[1..]);
      assert a == [a[0]] + a[1..] && b == [b[0]] + b[1..];
    }
  }

  /**
   * An account of the batch has its groups in the order it would have them alone exactly when the joined rows of
   * the whole batch and those of the account alone mention its groups first in the same order.
   */
  lemma GroupOrderIff(db: Db, q: AccountQuery, nodes: seq<Row>, i: nat)
    requires ValidDb(db) && q.withGroups.Some? && Unlimited(q.withGroups.value)
    requires i < |nodes| && HoldsId(nodes, i)
    ensures GroupsOf(db, q, nodes, i) == GroupsOf(db, q, [nodes[i]], 0)
       <==> SameOrder(JoinRows(db, q.withGroups.value, nodes), JoinRows(db, q.withGroups.value, [nodes[i]]), GroupsOf(db, q, nodes, i))
  {
    var base := q.withGroups.value;
    var js, ks := JoinRows(db, base, nodes), JoinRows(db, base, [nodes[i]]);
    var a, b := GroupsOf(db, q, nodes, i), GroupsOf(db, q, [nodes[i]], 0);
    assert nodes[i] in nodes && nodes[i] in [nodes[i]];
    GroupsAgree(db, base, nodes, Key(nodes[i], ID));
    GroupsAgree(db, base, [nodes[i]], Key(nodes[i], ID));
    GroupsInFirstSeenOrder(db, q, nodes, i);
    GroupsInFirstSeenOrder(db, q, [nodes[i]], 0);
    FirstSeenInOrder(js, a);
    FirstSeenInOrder(ks, b);
    if a == b {
      SameListSameOrder(js, ks, a);
    }
    if SameOrder(js, ks, a) {
      assert forall x | 0 <= x < |a| :: a[x] in a;
      OrderDetermines(ks, a, b);
    }
  }

  // ------------------------------------------------- offset and limit on the joined query

  /** The joined rows of the batch before offset and limit, and the accounts they belong to. */
  function JoinedAll(db: Db, base: Base, keys: set<int>): seq<(Row, Row)> {
    ScanJoin(db.joinScan, base.preds, keys)
  }

  function JoinOwners(js: seq<(Row, Row)>): seq<Option<int>> {
    seq(|js|, j requires 0 <= j < |js| => IntAt(js[j].0, AccountID))
  }

  function GroupIds(js: seq<(Row, Row)>): seq<int> {
    seq(|js|, j requires 0 <= j < |js| => Key(js[j].1, ID))
  }

  lemma {:induction false} JoinOwned(pairs: seq<(Row, Row)>, preds: seq<Predicate>, keys: set<int>, k: int)
    requires k in keys
    ensures var all := ScanJoin(pairs, preds, keys); Owned(all, JoinOwners(all), k) == ScanJoin(pairs, preds, {k})
  {
    if pairs != [] {
      var front, p := pairs[..|pairs| - 1], pairs[|pairs| - 1];
      JoinOwned(front, preds, keys, k);
      var rest, all := ScanJoin(front, preds, keys), ScanJoin(pairs, preds, keys);
      if all == rest + [p] {
        OwnedPrefix(all, JoinOwners(all), rest, JoinOwners(rest), |rest|, k);
      }
    }
  }

  lemma JoinOwnersKnown(db: Db, base: Base, keys: set<int>)
    ensures var js := JoinedAll(db, base, keys);
            forall j | 0 <= j < |js| :: JoinOwners(js)[j].Some? && JoinOwners(js)[j].value in keys
  {
    var js := JoinedAll(db, base, keys);
    ScanJoinFacts(db.joinScan, base.preds, keys);
    assert forall j | 0 <= j < |js| :: js[j] in js;
  }

  /** Group `g` is among those that account `k` gets, by the joined rows `js`. */
  predicate Gets(js: seq<(Row, Row)>, k: int, g: int) {
    LinkedUpTo(js, |js|, k, g)
  }

  lemma GetsOwned(js: seq<(Row, Row)>, k: int, g: int)
    requires forall j | 0 <= j < |js| :: JoinOwners(js)[j].Some?
    ensures Gets(js, k, g) <==> g in Owned(GroupIds(js), JoinOwners(js), k)
  {
    OwnedMembers(GroupIds(js), JoinOwners(js), |js|, k);
    assert forall j | 0 <= j < |js| :: Key(js[j].0, AccountID) == k <==> JoinOwners(js)[j] == Some(k);
  }

  /** No group is joined to an account twice, as with a composite primary key. */
  ghost predicate Unrepeated(js: seq<(Row, Row)>) {
    forall x, y | 0 <= x < y < |js| :: JoinOwners(js)[x] == JoinOwners(js)[y] ==> GroupIds(js)[x] != GroupIds(js)[y]
  }

  lemma {:induction false} ScanUnrepeated(pairs: seq<(Row, Row)>, preds: seq<Predicate>, keys: set<int>)
    requires Unrepeated(pairs)
    ensures Unrepeated(ScanJoin(pairs, preds, keys))
  {
    if pairs != [] {
      var front, p := pairs[..|pairs| - 1], pairs[|pairs| - 1];
      var rest := ScanJoin(front, preds, keys);
      FrontUnrepeated(pairs);
      ScanUnrepeated(front, preds, keys);
      ScanJoinFacts(front, preds, keys);
      forall x | 0 <= x < |rest| && JoinOwners(rest)[x] == IntAt(p.0, AccountID) ensures GroupIds(rest)[x] != Key(p.1, ID) {
        assert rest[x] in front;
        var y :| 0 <= y < |front| && front[y] == rest[x];
        assert JoinOwners(pairs)[y] == JoinOwners(rest)[x] && GroupIds(pairs)[y] == GroupIds(rest)[x];
        assert JoinOwners(pairs)[|front|] == IntAt(p.0, AccountID) && GroupIds(pairs)[|front|] == Key(p.1, ID);
      }
      OneMoreUnrepeated(rest, p);
    }
  }

  lemma FrontUnrepeated(js: seq<(Row, Row)>)
    requires Unrepeated(js) && js != []
    ensures Unrepeated(js[..|js| - 1])
  {
    var front := js[..|js| - 1];
    assert JoinOwners(front) == JoinOwners(js)[..|js| - 1] && GroupIds(front) == GroupIds(js)[..|js| - 1];
  }

  lemma OneMoreUnrepeated(js: seq<(Row, Row)>, p: (Row, Row))
    requires Unrepeated(js)
    requires forall x | 0 <= x < |js| && JoinOwners(js)[x] == IntAt(p.0, AccountID) :: GroupIds(js)[x] != Key(p.1, ID)
    ensures Unrepeated(js + [p])
  {
    assert JoinOwners(js + [p]) == JoinOwners(js) + [IntAt(p.0, AccountID)];
    assert GroupIds(js + [p]) == GroupIds(js) + [Key(p.1, ID)];
  }

  lemma {:induction false} OwnedUnrepeated<T>(items: seq<T>, keys: seq<Option<int>>, n: nat, k: int)
    requires n <= |items| == |keys|
    requires forall x, y | 0 <= x < y < |items| :: keys[x] == keys[y] ==> items[x] != items[y]
    ensures NoDuplicates(OwnedUpTo(items, keys, n, k))
  {
    if n > 0 {
      OwnedUnrepeated(items, keys, n - 1, k);
      OwnedMembers(items, keys, n - 1, k);
      var rest := OwnedUpTo(items, keys, n - 1, k);
      if keys[n - 1] == Some(k) {
        forall x | 0 <= x < |rest| ensures rest[x] != items[n - 1] {
          assert rest[x] in rest;
          var j :| 0 <= j < n - 1 && keys[j] == Some(k) && items[j] == rest[x];
        }
      }
    }
  }

  lemma SlicesWithSameMembers(s: seq<int>, a: nat, b: nat, c: nat, d: nat)
    requires a <= b <= |s| && c <= d <= |s| && NoDuplicates(s)
    ensures (forall x :: x in s[a..b] <==> x in s[c..d]) <==> (a == c && b == d) || (a == b && c == d)
  {
    forall j | 0 <= j < |s| ensures s[j] in s[a..b] <==> a <= j < b {
      SliceMember(s, a, b, j);
    }
    forall j | 0 <= j < |s| ensures s[j] in s[c..d] <==> c <= j < d {
      SliceMember(s, c, d, j);
    }
    if forall x :: x in s[a..b] <==> x in s[c..d] {
      assert a < b ==> s[a] in s[c..d] && s[b - 1] in s[c..d];
      assert c < d ==> s[c] in s[a..b] && s[d - 1] in s[a..b];
    }
  }

  lemma SliceMember(s: seq<int>, a: nat, b: nat, j: nat)
    requires a <= b <= |s| && j < |s| && NoDuplicates(s)
    ensures s[j] in s[a..b] <==> a <= j < b
  {
    if a <= j < b {
      assert s[a..b][j - a] == s[j];
    }
    if s[j] in s[a..b] {
      var x :| 0 <= x < |s[a..b]| && s[a..b][x] == s[j];
      assert s[a + x] == s[j];
    }
  }

  /** An account gets the same groups out of the window on the batch as alone exactly when its slices are the same. */
  lemma GetsSlice(all: seq<(Row, Row)>, base: Base, k: int)
    requires Unrepeated(all) && forall j | 0 <= j < |all| :: JoinOwners(all)[j].Some?
    ensures var alone := Window(base, Owned(all, JoinOwners(all), k));
            (forall g :: Gets(Window(base, all), k, g) <==> Gets(alone, k, g)) <==> SameSlice(JoinOwners(all), base, k)
  {
    var ks, ids, n := JoinOwners(all), GroupIds(all), |all|;
    var mine := Owned(ids, ks, k);
    OwnedUnrepeated(ids, ks, n, k);
    OwnedWindow(ids, ks, base, k);
    WindowIsSlice(base, mine);
    var alone := Window(base, Owned(all, ks, k));
    forall g
      ensures Gets(Window(base, all), k, g) <==> g in mine[Count(ks, From(base, n), k)..Count(ks, To(base, n), k)]
      ensures Gets(alone, k, g) <==> g in mine[From(base, |mine|)..To(base, |mine|)]
    {
      GetsInBatch(all, base, k, g);
      GetsAlone(all, base, k, g);
    }
    SlicesWithSameMembers(mine, Count(ks, From(base, n), k), Count(ks, To(base, n), k), From(base, |mine|), To(base, |mine|));
  }

  lemma GetsInBatch(all: seq<(Row, Row)>, base: Base, k: int, g: int)
    requires forall j | 0 <= j < |all| :: JoinOwners(all)[j].Some?
    ensures |Window(base, GroupIds(all))| == |Window(base, JoinOwners(all))|
    ensures Gets(Window(base, all), k, g) <==> g in Owned(Window(base, GroupIds(all)), Window(base, JoinOwners(all)), k)
  {
    var js := Window(base, all);
    WindowIsSlice(base, all);
    WindowIsSlice(base, JoinOwners(all));
    WindowIsSlice(base, GroupIds(all));
    assert JoinOwners(js) == Window(base, JoinOwners(all)) && GroupIds(js) == Window(base, GroupIds(all));
    GetsOwned(js, k, g);
  }

  lemma GetsAlone(all: seq<(Row, Row)>, base: Base, k: int, g: int)
    requires forall j | 0 <= j < |all| :: JoinOwners(all)[j].Some?
    ensures Gets(Window(base, Owned(all, JoinOwners(all), k)), k, g) <==> g in Window(base, Owned(GroupIds(all), JoinOwners(all), k))
  {
    var ks := JoinOwners(all);
    var mine, ids := Owned(all, ks, k), Owned(GroupIds(all), ks, k);
    OwnedPositions(all, GroupIds(all), ks, |all|, k);
    assert forall x | 0 <= x < |mine| :: JoinOwners(mine)[x] == Some(k) && GroupIds(mine)[x] == ids[x];
    GetsInBatch(mine, base, k, g);
    WindowIsSlice(base, JoinOwners(mine));
    WindowIsSlice(base, ids);
    assert GroupIds(mine) == ids;
    OwnedAll(Window(base, ids), Window(base, JoinOwners(mine)), |Window(base, ids)|, k);
  }

  // ---------------------------------------------------------- from IDs to groups

  ghost predicate FromTables(db: Db, js: seq<(Row, Row)>) {
    forall p | p in js :: p.1 in db.groups
  }

  function GroupRows(js: seq<(Row, Row)>, columns: seq<Column>, k: int): seq<Row> {
    var groups := ProjectAll(FirstAppearances(js, |js|), columns);
    LinkedGroups(js, groups, |groups|, k)
  }

  lemma GroupRowIds(js: seq<(Row, Row)>, columns: seq<Column>, k: int, g: int)
    requires ID in columns
    ensures Gets(js, k, g) <==> exists r | r in GroupRows(js, columns, k) :: Key(r, ID) == g
  {
    var firsts := FirstAppearances(js, |js|);
    var groups := ProjectAll(firsts, columns);
    assert groups[..|groups|] == groups;
    if Gets(js, k, g) {
      var j :| 0 <= j < |js| && Key(js[j].0, AccountID) == k && Key(js[j].1, ID) == g;
      FirstAppearancesCover(js, |js|, j);
      var h :| h in firsts && Key(h, ID) == g;
      ProjectedMembers(firsts, columns, h);
      LinkedGroupsMembers(js, groups, |groups|, k, Project(h, columns));
    }
    if r :| r in GroupRows(js, columns, k) && Key(r, ID) == g {
      LinkedGroupsMembers(js, groups, |groups|, k, r);
    }
  }

  lemma GroupRowIs(db: Db, js: seq<(Row, Row)>, columns: seq<Column>, k: int, r: Row) returns (g: Row)
    requires FromTables(db, js) && ID in columns && r in GroupRows(js, columns, k)
    ensures g in db.groups && r == Project(g, columns) && Key(g, ID) == Key(r, ID)
  {
    var firsts := FirstAppearances(js, |js|);
    var groups := ProjectAll(firsts, columns);
    assert groups[..|groups|] == groups;
    LinkedGroupsMembers(js, groups, |groups|, k, r);
    ProjectedMembers(firsts, columns, r);
    g :| g in firsts && Project(g, columns) == r;
    FirstAppearancesOccur(js, |js|, g);
    var j :| 0 <= j < |js| && js[j].1 == g;
    assert js[j] in js;
  }

  lemma SameIdsSameRows(db: Db, js: seq<(Row, Row)>, ks: seq<(Row, Row)>, columns: seq<Column>, k: int)
    requires DistinctIds(db.groups) && FromTables(db, js) && FromTables(db, ks) && ID in columns
    ensures multiset(GroupRows(js, columns, k)) == multiset(GroupRows(ks, columns, k))
       <==> forall g :: Gets(js, k, g) <==> Gets(ks, k, g)
  {
    var a, b := GroupRows(js, columns, k), GroupRows(ks, columns, k);
    forall g
      ensures Gets(js, k, g) <==> exists r | r in a :: Key(r, ID) == g
      ensures Gets(ks, k, g) <==> exists r | r in b :: Key(r, ID) == g
    {
      GroupRowIds(js, columns, k, g);
      GroupRowIds(ks, columns, k, g);
    }
    if multiset(a) == multiset(b) {
      assert forall r :: r in a <==> r in multiset(a);
      assert forall r :: r in b <==> r in multiset(b);
    }
    if forall g :: Gets(js, k, g) <==> Gets(ks, k, g) {
      forall r ensures r in a <==> r in b {
        SameIdsOneRow(db, js, ks, columns, k, r);
        SameIdsOneRow(db, ks, js, columns, k, r);
      }
      GroupRowsDistinct(js, columns, k);
      GroupRowsDistinct(ks, columns, k);
      DistinctSameElements(a, b);
    }
  }

  lemma GroupRowsDistinct(js: seq<(Row, Row)>, columns: seq<Column>, k: int)
    requires ID in columns
    ensures DistinctIds(GroupRows(js, columns, k))
  {
    var firsts := FirstAppearances(js, |js|);
    FirstAppearancesDistinct(js, |js|);
    ProjectedDistinct(firsts, columns);
    LinkedGroupsDistinct(js, ProjectAll(firsts, columns), |firsts|, k);
  }

  lemma SameIdsOneRow(db: Db, js: seq<(Row, Row)>, ks: seq<(Row, Row)>, columns: seq<Column>, k: int, r: Row)
    requires DistinctIds(db.groups) && FromTables(db, js) && FromTables(db, ks) && ID in columns
    requires forall g :: Gets(js, k, g) <==> Gets(ks, k, g)
    ensures r in GroupRows(js, columns, k) ==> r in GroupRows(ks, columns, k)
  {
    if r in GroupRows(js, columns, k) {
      GroupRowIds(js, columns, k, Key(r, ID));
      GroupRowIds(ks, columns, k, Key(r, ID));
      var s :| s in GroupRows(ks, columns, k) && Key(s, ID) == Key(r, ID);
      var g := GroupRowIs(db, js, columns, k, r);
      var h := GroupRowIs(db, ks, columns, k, s);
      SameIdSameRow(db.groups, g, h);
    }
  }

  lemma JoinFromTables(db: Db, base: Base, nodes: seq<Row>)
    requires ValidDb(db)
    ensures FromTables(db, JoinRows(db, base, nodes))
  {
    var all := JoinedAll(db, base, PlainKeySet(nodes, ID));
    ScanJoinFacts(db.joinScan, base.preds, PlainKeySet(nodes, ID));
    WindowIsSlice(base, all);
    forall p | p in JoinRows(db, base, nodes) ensures p.1 in db.groups {
      assert p in all;
    }
  }

  lemma GroupsLimitAt(db: Db, q: AccountQuery, nodes: seq<Row>, i: nat)
    requires ValidDb(db) && Unrepeated(db.joinScan) && q.withGroups.Some? && i < |nodes| && HoldsId(nodes, i)
    ensures multiset(GroupsOf(db, q, nodes, i)) == multiset(GroupsOf(db, q, [nodes[i]], 0))
       <==> SameSlice(JoinOwners(JoinedAll(db, q.withGroups.value, PlainKeySet(nodes, ID))), q.withGroups.value, Key(nodes[i], ID))
  {
    var base, k, keys := q.withGroups.value, Key(nodes[i], ID), PlainKeySet(nodes, ID);
    var all, columns := JoinedAll(db, base, keys), ColumnsWithId(GroupTable(db), base);
    assert nodes[i] in nodes && PlainKeySet([nodes[i]], ID) == {k};
    JoinOwned(db.joinScan, base.preds, keys, k);
    JoinOwnersKnown(db, base, keys);
    ScanUnrepeated(db.joinScan, base.preds, keys);
    GetsSlice(all, base, k);
    JoinFromTables(db, base, nodes);
    JoinFromTables(db, base, [nodes[i]]);
    SameIdsSameRows(db, JoinRows(db, base, nodes), JoinRows(db, base, [nodes[i]]), columns, k);
  }

  /**
   * Groups: with an offset or a limit on the joined query, every account gets the groups it would get alone, order
   * aside, exactly when the window on the joined rows is harmless.
   */
  lemma GroupsLimitIff(db: Db, q: AccountQuery, nodes: seq<Row>)
    requires ValidDb(db) && Unrepeated(db.joinScan) && q.withGroups.Some? && forall i | 0 <= i < |nodes| :: HoldsId(nodes, i)
    ensures (forall i | 0 <= i < |nodes| :: multiset(GroupsOf(db, q, nodes, i)) == multiset(GroupsOf(db, q, [nodes[i]], 0)))
            <==> Harmless(JoinOwners(JoinedAll(db, q.withGroups.value, PlainKeySet(nodes, ID))), q.withGroups.value)
  {
    var base, keys := q.withGroups.value, PlainKeySet(nodes, ID);
    var ks := JoinOwners(JoinedAll(db, base, keys));
    JoinOwnersKnown(db, base, keys);
    SlicesIff(ks, base);
    forall i | 0 <= i < |nodes|
      ensures multiset(GroupsOf(db, q, nodes, i)) == multiset(GroupsOf(db, q, [nodes[i]], 0)) <==> SameSlice(ks, base, Key(nodes[i], ID))
    {
      GroupsLimitAt(db, q, nodes, i);
    }
    forall k | k in keys ensures exists i | 0 <= i < |nodes| :: Key(nodes[i], ID) == k {
      var r :| r in nodes && Key(r, ID) == k;
      var i :| 0 <= i < |nodes| && nodes[i] == r;
    }
    forall k | k !in keys ensures SameSlice(ks, base, k) {
      CountFacts(ks, From(base, |ks|), k);
      CountFacts(ks, To(base, |ks|), k);
      CountFacts(ks, |ks|, k);
    }
  }

  // --------------------------------------------------------------- small databases

  function Link(account: int, group: int): Row {
    map[AccountID := Int(account), GroupID := Int(group)]
  }

  function Bare(id: int): Row {
    map[ID := Int(id)]
  }

  function Joined(account: int, group: int): (Row, Row) {
    (Link(account, group), Bare(group))
  }

  /** Two accounts, and what the join of their links with the groups returns. */
  function Small(links: seq<Row>, groups: seq<Row>, joinScan: seq<(Row, Row)>): Db {
    Db([Bare(1), Bare(2)], links, groups, [], [], joinScan, [], [], [], [])
  }

  function WithGroups(limit: Option<pos>): AccountQuery {
    AccountQuery(Base([], [], 0, None), Some(Base([], [], 0, limit)), None, None, None, None, None)
  }

  lemma {:induction false} BareProjected(rows: seq<Row>)
    requires forall r | r in rows :: r == Bare(Key(r, ID))
    ensures ProjectAll(rows, [ID]) == rows
  {
    forall x | 0 <= x < |rows| ensures Project(rows[x], [ID]) == rows[x] {
      assert rows[x] in rows;
    }
  }

  lemma SmallGroups(db: Db, limit: Option<pos>, nodes: seq<Row>, i: nat, js: seq<(Row, Row)>, firsts: seq<Row>)
    requires db == Small(db.accountGroups, db.groups, db.joinScan) && i < |nodes| && HoldsId(nodes, i)
    requires js == JoinRows(db, Base([], [], 0, limit), nodes) && firsts == FirstAppearances(js, |js|)
    requires forall r | r in firsts :: r == Bare(Key(r, ID))
    ensures GroupsOf(db, WithGroups(limit), nodes, i) == LinkedGroups(js, firsts, |firsts|, Key(nodes[i], ID))
  {
    BareProjected(firsts);
    assert GroupTable(db) == [ID];
  }

  lemma SmallKeys()
    ensures PlainKeySet([Bare(1), Bare(2)], ID) == {1, 2} && PlainKeySet([Bare(1)], ID) == {1} && PlainKeySet([Bare(2)], ID) == {2}
  {
    var two := [Bare(1), Bare(2)];
    assert Key(two[0], ID) == 1 && Key(two[1], ID) == 2 && two[0] in two && two[1] in two;
    assert Bare(1) in [Bare(1)] && Bare(2) in [Bare(2)];
  }

  lemma LinkKeys(a: int, g: int)
    ensures Key(Joined(a, g).0, AccountID) == a && IntAt(Joined(a, g).0, AccountID) == Some(a) && Key(Joined(a, g).1, ID) == g
  {
  }

  /** Three joined rows of two accounts and two groups: in the batch account 1 gets its groups in the other order. */
  lemma GroupOrderDiffers()
    ensures var db := Small([Link(2, 12), Link(1, 11), Link(1, 12)], [Bare(11), Bare(12)], [Joined(2, 12), Joined(1, 11), Joined(1, 12)]);
            && GroupsOf(db, WithGroups(None), [Bare(1), Bare(2)], 0) == [Bare(12), Bare(11)]
            && GroupsOf(db, WithGroups(None), [Bare(1)], 0) == [Bare(11), Bare(12)]
  {
    var x, y, z := Joined(2, 12), Joined(1, 11), Joined(1, 12);
    var db := Small([Link(2, 12), Link(1, 11), Link(1, 12)], [Bare(11), Bare(12)], [x, y, z]);
    var js, ks := [x, y, z], [y, z];
    SmallKeys();
    LinkKeys(2, 12);
    LinkKeys(1, 11);
    LinkKeys(1, 12);
    JoinOfThree(x, y, z, {1, 2});
    JoinOfThree(x, y, z, {1});
    assert js == [x] + [y] + [z] && ks == [] + [y] + [z];
    FirstOfThree(x, y, z);
    FirstOfTwo(y, z);
    assert js[2] == z && js[1] == y && ks[0] == y && ks[1] == z;
    SmallGroups(db, None, [Bare(1), Bare(2)], 0, js, [Bare(12), Bare(11)]);
    SmallGroups(db, None, [Bare(1)], 0, ks, [Bare(11), Bare(12)]);
    LinkedPair(js, Bare(12), Bare(11), 1);
    LinkedPair(ks, Bare(11), Bare(12), 1);
  }

  lemma LinkedPair(js: seq<(Row, Row)>, g: Row, h: Row, k: int)
    requires LinkedUpTo(js, |js|, k, Key(g, ID)) && LinkedUpTo(js, |js|, k, Key(h, ID))
    ensures LinkedGroups(js, [g, h], 2, k) == [g, h]
  {
    assert LinkedGroups(js, [g, h], 1, k) == [g];
  }

  lemma JoinOfThree(x: (Row, Row), y: (Row, Row), z: (Row, Row), accounts: set<int>)
    ensures ScanJoin([x, y, z], [], accounts)
         == (if Satisfies(In(AccountID, accounts), x.0) then [x] else [])
            + (if Satisfies(In(AccountID, accounts), y.0) then [y] else [])
            + (if Satisfies(In(AccountID, accounts), z.0) then [z] else [])
  {
    assert [x, y, z][..2] == [x, y] && [x, y][..1] == [x] && [x][..0] == [];
    assert forall r :: Holds([], r);
    assert ScanJoin([x], [], accounts) == if Satisfies(In(AccountID, accounts), x.0) then [x] else [];
  }

  lemma FirstOfTwo(x: (Row, Row), y: (Row, Row))
    requires Key(x.1, ID) != Key(y.1, ID)
    ensures FirstAppearances([x, y], 2) == [x.1, y.1]
  {
    assert FirstAppearances([x, y], 1) == [x.1];
  }

  lemma FirstOfThree(x: (Row, Row), y: (Row, Row), z: (Row, Row))
    requires Key(x.1, ID) != Key(y.1, ID) && Key(z.1, ID) == Key(x.1, ID)
    ensures FirstAppearances([x, y, z], 3) == [x.1, y.1]
  {
    var js := [x, y, z];
    assert FirstAppearances(js, 1) == [x.1];
    assert FirstAppearances(js, 2) == [x.1, y.1];
    assert SeenUpTo(js, 2, Key(z.1, ID)) by { assert js[0] == x; }
  }

  function Repeating(): Db {
    Small([Link(1, 11), Link(2, 11)], [Bare(11)], [Joined(1, 11), Joined(2, 11), Joined(1, 11)])
  }

  lemma RepeatingJoined(accounts: set<int>)
    ensures ScanJoin(Repeating().joinScan, [], accounts)
         == (if 1 in accounts then [Joined(1, 11)] else [])
            + (if 2 in accounts then [Joined(2, 11)] else [])
            + (if 1 in accounts then [Joined(1, 11)] else [])
  {
    LinkKeys(1, 11);
    LinkKeys(2, 11);
    JoinOfThree(Joined(1, 11), Joined(2, 11), Joined(1, 11), accounts);
  }

  lemma RepeatingBatch()
    ensures JoinedAll(Repeating(), Base([], [], 0, Some(2)), {1, 2}) == [Joined(1, 11), Joined(2, 11), Joined(1, 11)]
    ensures JoinRows(Repeating(), Base([], [], 0, Some(2)), [Bare(1), Bare(2)]) == [Joined(1, 11), Joined(2, 11)]
  {
    var x, y := Joined(1, 11), Joined(2, 11);
    SmallKeys();
    RepeatingJoined({1, 2});
    assert [x] + [y] + [x] == [x, y, x] && [x, y, x][0..][..2] == [x, y];
  }

  lemma RepeatingAlone()
    ensures JoinRows(Repeating(), Base([], [], 0, Some(2)), [Bare(1)]) == [Joined(1, 11), Joined(1, 11)]
    ensures JoinRows(Repeating(), Base([], [], 0, Some(2)), [Bare(2)]) == [Joined(2, 11)]
  {
    var x, y := Joined(1, 11), Joined(2, 11);
    SmallKeys();
    RepeatingJoined({1});
    RepeatingJoined({2});
    assert [x] + [] + [x] == [x, x] && [] + [y] + [] == [y] && [x, x][0..] == [x, x] && [y][0..] == [y];
  }

  lemma RepeatingIsCut()
    ensures var all := [Joined(1, 11), Joined(2, 11), Joined(1, 11)];
            !Unrepeated(all) && !Harmless(JoinOwners(all), Base([], [], 0, Some(2)))
  {
    var all := [Joined(1, 11), Joined(2, 11), Joined(1, 11)];
    LinkKeys(1, 11);
    LinkKeys(2, 11);
    assert JoinOwners(all)[0] == JoinOwners(all)[2] == Some(1) && JoinOwners(all)[1] == Some(2);
    assert GroupIds(all)[0] == GroupIds(all)[2];
  }

  lemma RepeatingGroups(nodes: seq<Row>, i: nat, j: nat, js: seq<(Row, Row)>)
    requires i < |nodes| && HoldsId(nodes, i) && js == JoinRows(Repeating(), Base([], [], 0, Some(2)), nodes)
    requires js == [Joined(1, 11), Joined(2, 11)] || js == [Joined(1, 11), Joined(1, 11)] || js == [Joined(2, 11)]
    requires j < |js| && js[j] == Joined(Key(nodes[i], ID), 11)
    ensures GroupsOf(Repeating(), WithGroups(Some(2)), nodes, i) == [Bare(11)]
  {
    LinkKeys(1, 11);
    LinkKeys(2, 11);
    if |js| == 2 {
      FirstOfSame(js[0], js[1]);
    } else {
      FirstOfSame(js[0], js[0]);
    }
    SmallGroups(Repeating(), Some(2), nodes, i, js, [Bare(11)]);
    LinkedOne(js, Bare(11), Key(nodes[i], ID), j);
  }

  /**
   * Where the join repeats a row, a limit may cut it without harm to anyone: two accounts with one group each,
   * three joined rows, a limit of two.
   */
  lemma RepeatedRowCutHarmlessly()
    ensures var db, q, nodes := Repeating(), WithGroups(Some(2)), [Bare(1), Bare(2)];
            && !Unrepeated(db.joinScan) && !Harmless(JoinOwners(JoinedAll(db, q.withGroups.value, {1, 2})), q.withGroups.value)
            && GroupsOf(db, q, nodes, 0) == [Bare(11)] && GroupsOf(db, q, [nodes[0]], 0) == [Bare(11)]
            && GroupsOf(db, q, nodes, 1) == [Bare(11)] && GroupsOf(db, q, [nodes[1]], 0) == [Bare(11)]
  {
    var nodes := [Bare(1), Bare(2)];
    RepeatingBatch();
    RepeatingAlone();
    RepeatingIsCut();
    assert Key(Bare(1), ID) == 1 && Key(Bare(2), ID) == 2;
    RepeatingGroups(nodes, 0, 0, [Joined(1, 11), Joined(2, 11)]);
    RepeatingGroups(nodes, 1, 1, [Joined(1, 11), Joined(2, 11)]);
    RepeatingGroups([Bare(1)], 0, 0, [Joined(1, 11), Joined(1, 11)]);
    RepeatingGroups([Bare(2)], 0, 0, [Joined(2, 11)]);
  }

  lemma FirstOfSame(x: (Row, Row), y: (Row, Row))
    requires Key(x.1, ID) == Key(y.1, ID)
    ensures FirstAppearances([x, y], 2) == [x.1] && FirstAppearances([y], 1) == [y.1]
  {
    assert FirstAppearances([x, y], 1) == [x.1];
    assert SeenUpTo([x, y], 1, Key(y.1, ID)) by { assert [x, y][0] == x; }
  }

  lemma LinkedOne(js: seq<(Row, Row)>, g: Row, k: int, j: nat)
    requires j < |js| && Key(js[j].0, AccountID) == k && Key(js[j].1, ID) == Key(g, ID)
    ensures LinkedGroups(js, [g], 1, k) == [g]
  {
  }
}
