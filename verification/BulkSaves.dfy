/** What a whole bulk save does, for every plan: the exact conditions of a single insert, of success, and of marks. */
module BulkSaves {
  import opened Basics
  import opened BulkCreate
  import opened BulkRuns

  lemma StartsReady(p: Plan, init: seq<Fields>)
    requires |init| == |p.hooks| > 0
    ensures Ready(p, Aims(p, init), 0, 0, Start(init))
  {
  }

  lemma {:induction false} StopFacts(p: Plan, aims: seq<Fields>, i: nat)
    requires |aims| == |p.hooks| && i < |p.hooks|
    ensures var stop := Stop(p, aims, i, 0);
            && (forall x | i <= x < stop :: Through(p, aims, x, 0))
            && (stop < |p.hooks| ==> !Through(p, aims, stop, 0))
    decreases |p.hooks| - i
  {
    if Through(p, aims, i, 0) && i + 1 < |p.hooks| {
      StopFacts(p, aims, i + 1);
    }
  }

  lemma AllThroughStops(p: Plan, aims: seq<Fields>)
    requires |aims| == |p.hooks| > 0
    ensures AllThrough(p, aims) <==> Stop(p, aims, 0, 0) == |p.hooks|
  {
    StopFacts(p, aims, 0);
  }

  /** Everything that the plan foretells of a run. */
  lemma RunFacts(p: Plan, init: seq<Fields>)
    requires |init| == |p.hooks| > 0
    ensures var (t, r) := Run(p, init);
            var aims := Aims(p, init);
            && Wrote(p, aims, 0, 0, Start(init), t) && Fared(p, aims, 0, 0, Start(init), t, r)
            && Built(p, aims, 0, 0, Start(init), t) && Numbered(p, 0, |t.inserts|, map[], t.ids)
  {
    var aims := Aims(p, init);
    StartsReady(p, init);
    Writes(p, aims, 0, 0, Start(init));
    Fares(p, aims, 0, 0, Start(init));
    Builds(p, aims, 0, 0, Start(init));
    Numbers(p, aims, 0, 0, Start(init));
  }

  // --------------------------------------------------------------------- the inserts

  lemma {:induction false} ThroughIsChecked(p: Plan, aims: seq<Fields>, i: nat, h: nat)
    requires |aims| == |p.hooks| && i < |p.hooks| && h <= |p.hooks[i]| && Through(p, aims, i, h)
    ensures Check(p.schema, aims[i]).None?
    decreases |p.hooks[i]| - h
  {
    if h < |p.hooks[i]| {
      ThroughIsChecked(p, aims, i, h + 1);
    }
  }

  /** Every plan: something is inserted exactly when all builders get through, and every batch is complete and checked. */
  lemma InsertsAreComplete(p: Plan, init: seq<Fields>)
    requires |init| == |p.hooks| > 0
    ensures var t := Run(p, init).0;
            var aims := Aims(p, init);
            && (t.inserts != [] <==> AllThrough(p, aims))
            && forall j | 0 <= j < |t.inserts| :: |t.inserts[j]| == |p.hooks| && forall i | 0 <= i < |p.hooks| ::
                 t.inserts[j][i] == Some(aims[i]) && Check(p.schema, aims[i]).None?
  {
    var aims := Aims(p, init);
    RunFacts(p, init);
    AllThroughStops(p, aims);
    if AllThrough(p, aims) {
      forall i | 0 <= i < |p.hooks| ensures Check(p.schema, aims[i]).None? {
        ThroughIsChecked(p, aims, i, 0);
      }
    }
  }

  /** A retry hook that is told of a failure when the first insert is the only one. */
  predicate Repeats(p: Plan, aims: seq<Fields>, i: nat, h: nat)
    requires |aims| == |p.hooks| && i < |p.hooks| && h < |p.hooks[i]|
  {
    Retries(p, i, h) && !Says(Verdict(p, aims, i, h + 1), p.batch(0).Stored?)
  }

  /** No retry hook from hook `h` of builder `i` on repeats the insert. */
  predicate NoneRepeats(p: Plan, aims: seq<Fields>, i: nat, h: nat)
    requires |aims| == |p.hooks| && i < |p.hooks| && h <= |p.hooks[i]|
  {
    && (forall g | h <= g < |p.hooks[i]| :: !Repeats(p, aims, i, g))
    && (forall x, g | i < x < |p.hooks| && 0 <= g < |p.hooks[x]| :: !Repeats(p, aims, x, g))
  }

  lemma {:induction false} CalmIff(p: Plan, aims: seq<Fields>, i: nat, h: nat)
    requires |aims| == |p.hooks| && i < |p.hooks| && h <= |p.hooks[i]|
    ensures Calm(p, aims, i, h, p.batch(0).Stored?) <==> NoneRepeats(p, aims, i, h)
    decreases |p.hooks| - i, |p.hooks[i]| - h
  {
    if h < |p.hooks[i]| {
      CalmIff(p, aims, i, h + 1);
      assert NoneRepeats(p, aims, i, h) <==> !Repeats(p, aims, i, h) && NoneRepeats(p, aims, i, h + 1);
    } else if i + 1 < |p.hooks| {
      CalmIff(p, aims, i + 1, 0);
      assert NoneRepeats(p, aims, i, h) <==> NoneRepeats(p, aims, i + 1, 0);
    }
  }

  /** Every plan: at most one insert, exactly when nobody gets that far or no retry hook is told of a failure. */
  lemma SaveInsertsOnceIff(p: Plan, init: seq<Fields>)
    requires |init| == |p.hooks| > 0
    ensures |Run(p, init).0.inserts| <= 1
       <==> (AllThrough(p, Aims(p, init)) ==>
               forall i, h | 0 <= i < |p.hooks| && 0 <= h < |p.hooks[i]| :: !Repeats(p, Aims(p, init), i, h))
  {
    var aims := Aims(p, init);
    RunFacts(p, init);
    StartsReady(p, init);
    AllThroughStops(p, aims);
    CalmIff(p, aims, 0, 0);
    if AllThrough(p, aims) {
      InsertsOnce(p, aims, 0, 0, Start(init));
    }
  }

  /** In particular when no hook calls the rest of the chain again. */
  lemma SaveInsertsOnce(p: Plan, init: seq<Fields>)
    requires |init| == |p.hooks| > 0 && CallsNextOnce(p)
    ensures |Run(p, init).0.inserts| <= 1
  {
    SaveInsertsOnceIff(p, init);
  }

  /** Every plan: an insert is stored exactly when all builders get through and one that the plan affords is stored. */
  lemma SaveStoresIff(p: Plan, init: seq<Fields>)
    requires |init| == |p.hooks| > 0
    ensures AnyStored(p, 0, |Run(p, init).0.inserts|) <==> Stores(p, Aims(p, init))
  {
    RunFacts(p, init);
    AllThroughStops(p, Aims(p, init));
  }

  // ----------------------------------------------------------------- marks and success

  /** Builder `x` is reached and told of success, in the end. */
  predicate Marked(p: Plan, aims: seq<Fields>, x: nat)
    requires |aims| == |p.hooks| && x < |p.hooks|
  {
    x < Stop(p, aims, 0, 0) && Says(Inside(p, aims, x), Stores(p, aims))
  }

  /** Every plan: who is marked done, and whether the save succeeds, read off the plan. */
  lemma SaveMarks(p: Plan, init: seq<Fields>)
    requires |init| == |p.hooks| > 0
    ensures var (t, r) := Run(p, init);
            var aims := Aims(p, init);
            && (r.Success? <==> Says(Verdict(p, aims, 0, 0), Stores(p, aims)))
            && forall x | 0 <= x < |p.hooks| :: t.mutations[x].done <==> Marked(p, aims, x)
  {
    RunFacts(p, init);
    SaveStoresIff(p, init);
  }

  /** The hooks of builder `y` report success although it was not created: they short-circuit, or recover from a failure. */
  predicate Hides(p: Plan, aims: seq<Fields>, y: nat)
    requires |aims| == |p.hooks| && y < |p.hooks|
  {
    y <= Stop(p, aims, 0, 0) && Says(Verdict(p, aims, y, 0), Stores(p, aims)) && !Marked(p, aims, y)
  }

  ghost predicate Suffix(ms: seq<Mutation>) {
    forall x, y | 0 <= x < y < |ms| && ms[x].done :: ms[y].done
  }

  lemma {:induction false} MarksSpread(p: Plan, aims: seq<Fields>, x: nat, y: nat)
    requires |aims| == |p.hooks| && x <= y < |p.hooks| && Marked(p, aims, x)
    requires forall z | 0 < z < |p.hooks| :: !Hides(p, aims, z)
    ensures Marked(p, aims, y)
  {
    if x < y {
      MarksSpread(p, aims, x, y - 1);
      assert !Hides(p, aims, y);
    }
  }

  /** Every plan: the done mutations form a suffix exactly when no builder but the first hides that it was not created. */
  lemma SaveMarksSuffix(p: Plan, init: seq<Fields>)
    requires |init| == |p.hooks| > 0
    ensures Suffix(Run(p, init).0.mutations) <==> forall y | 0 < y < |p.hooks| :: !Hides(p, Aims(p, init), y)
  {
    var t, aims := Run(p, init).0, Aims(p, init);
    SaveMarks(p, init);
    if forall y | 0 < y < |p.hooks| :: !Hides(p, aims, y) {
      forall x, y | 0 <= x < y < |t.mutations| && t.mutations[x].done ensures t.mutations[y].done {
        MarksSpread(p, aims, x, y);
      }
    }
    if y :| 0 < y < |p.hooks| && Hides(p, aims, y) {
      assert t.mutations[y - 1].done && !t.mutations[y].done;
    }
  }

  predicate AllDone(s: State) {
    forall x | 0 <= x < |s.mutations| :: s.mutations[x].done
  }

  /** Every plan: success means that all are done and stored, exactly when it fails anyway or no builder hides. */
  lemma SaveIsHonestIff(p: Plan, init: seq<Fields>)
    requires |init| == |p.hooks| > 0
    ensures var (t, r) := Run(p, init);
            var aims := Aims(p, init);
            (r.Success? ==> AllDone(t) && AnyStored(p, 0, |t.inserts|))
            <==> (Says(Verdict(p, aims, 0, 0), Stores(p, aims)) ==> forall y | 0 <= y < |p.hooks| :: !Hides(p, aims, y))
  {
    var (t, r) := Run(p, init);
    var aims, last := Aims(p, init), |p.hooks| - 1;
    SaveMarks(p, init);
    SaveStoresIff(p, init);
    if r.Success? && forall y | 0 <= y < |p.hooks| :: !Hides(p, aims, y) {
      assert !Hides(p, aims, 0);
      forall x | 0 <= x < |p.hooks| ensures t.mutations[x].done {
        MarksSpread(p, aims, 0, x);
      }
      assert Marked(p, aims, last) && Inside(p, aims, last).None?;
    }
  }

  /** What hides has a cause among the builder's own hooks. */
  lemma {:induction false} HidesHasCause(p: Plan, aims: seq<Fields>, y: nat, h: nat) returns (g: nat)
    requires |aims| == |p.hooks| && y < |p.hooks| && h <= |p.hooks[y]|
    requires Says(Verdict(p, aims, y, h), Stores(p, aims)) && !(Through(p, aims, y, h) && Says(Inside(p, aims, y), Stores(p, aims)))
    ensures h <= g < |p.hooks[y]| && (p.hooks[y][g].ShortCircuit? || (p.hooks[y][g].Forward? && p.hooks[y][g].after.Recover?))
    decreases |p.hooks[y]| - h
  {
    g := h;
    if h < |p.hooks[y]| && p.hooks[y][h].Forward? && !p.hooks[y][h].after.Recover? {
      g := HidesHasCause(p, aims, y, h + 1);
    }
  }

  // ------------------------------------------------------------------ success in full

  /** The outermost hook of builder `i` from `h` on that fails or recovers on the way out. */
  function Lead(p: Plan, i: nat, h: nat): Option<bool>
    requires i < |p.hooks| && h <= |p.hooks[i]|
    decreases |p.hooks[i]| - h
  {
    if h == |p.hooks[i]| || !p.hooks[i][h].Forward? then None
    else if p.hooks[i][h].after.Fail? then Some(false)
    else if p.hooks[i][h].after.Recover? then Some(true)
    else Lead(p, i, h + 1)
  }

  lemma {:induction false} LeadDecides(p: Plan, aims: seq<Fields>, i: nat, h: nat)
    requires |aims| == |p.hooks| && i < |p.hooks| && h <= |p.hooks[i]| && Through(p, aims, i, h)
    ensures Verdict(p, aims, i, h) == if Lead(p, i, h).Some? then Lead(p, i, h) else Inside(p, aims, i)
    decreases |p.hooks[i]| - h
  {
    if h < |p.hooks[i]| {
      LeadDecides(p, aims, i, h + 1);
    }
  }

  lemma {:induction false} NoLeadingFail(p: Plan, aims: seq<Fields>, i: nat)
    requires |aims| == |p.hooks| && i < |p.hooks| && AllThrough(p, aims)
    requires forall x | 0 <= x < |p.hooks| :: Lead(p, x, 0) != Some(false)
    ensures Verdict(p, aims, i, 0) != Some(false)
    decreases |p.hooks| - i
  {
    LeadDecides(p, aims, i, 0);
    if i + 1 < |p.hooks| {
      NoLeadingFail(p, aims, i + 1);
    }
  }

  lemma LeadingFailBlocks(p: Plan, init: seq<Fields>, x: nat)
    requires |init| == |p.hooks| && x < |p.hooks| && Lead(p, x, 0) == Some(false) && Through(p, Aims(p, init), x, 0)
    ensures !(Run(p, init).1.Success? && AllDone(Run(p, init).0))
  {
    var t, aims := Run(p, init).0, Aims(p, init);
    SaveMarks(p, init);
    LeadDecides(p, aims, x, 0);
    assert Verdict(p, aims, x, 0) == Some(false);
    if x > 0 {
      assert Inside(p, aims, x - 1) == Some(false);
      assert t.mutations[x - 1].done <==> Marked(p, aims, x - 1);
    }
  }

  lemma LeadsSuffice(p: Plan, init: seq<Fields>)
    requires |init| == |p.hooks| > 0 && Stores(p, Aims(p, init))
    requires forall x | 0 <= x < |p.hooks| :: Lead(p, x, 0) != Some(false)
    ensures Run(p, init).1.Success? && AllDone(Run(p, init).0)
  {
    var t, aims := Run(p, init).0, Aims(p, init);
    SaveMarks(p, init);
    AllThroughStops(p, aims);
    NoLeadingFail(p, aims, 0);
    forall x | 0 <= x < |p.hooks| ensures t.mutations[x].done {
      if x + 1 < |p.hooks| {
        NoLeadingFail(p, aims, x + 1);
      }
      assert Marked(p, aims, x);
    }
  }

  /**
   * Every plan: a save succeeds with all marked done exactly when all builders get through, an insert is stored,
   * and in no builder the outermost hook that fails or recovers is one that fails.
   */
  lemma SaveSucceedsIff(p: Plan, init: seq<Fields>)
    requires |init| == |p.hooks| > 0
    ensures var (t, r) := Run(p, init);
            r.Success? && AllDone(t)
            <==> Stores(p, Aims(p, init)) && forall x | 0 <= x < |p.hooks| :: Lead(p, x, 0) != Some(false)
  {
    var (t, r) := Run(p, init);
    var aims, last := Aims(p, init), |p.hooks| - 1;
    if !Stores(p, aims) {
      SaveMarks(p, init);
      assert Inside(p, aims, last).None?;
      assert !Marked(p, aims, last) && !t.mutations[last].done;
    } else if x :| 0 <= x < |p.hooks| && Lead(p, x, 0) == Some(false) {
      LeadingFailBlocks(p, init, x);
    } else {
      LeadsSuffice(p, init);
    }
  }

  /** A save that inserts once: after full success every node has its builder's fields and the ID it was given. */
  lemma SaveAssignsIds(p: Plan, init: seq<Fields>, x: nat)
    requires |init| == |p.hooks| && x < |p.hooks|
    requires Run(p, init).1.Success? && AllDone(Run(p, init).0) && |Run(p, init).0.inserts| == 1
    ensures p.batch(0).Stored?
    ensures var ids := p.batch(0).ids;
            Run(p, init).0.nodes[x] == Some(Node(Aims(p, init)[x], if x in ids then ids[x] else 0))
  {
    var t, aims := Run(p, init).0, Aims(p, init);
    RunFacts(p, init);
    SaveSucceedsIff(p, init);
    SaveStoresIff(p, init);
    AllThroughStops(p, aims);
    SaveMarks(p, init);
    assert t.mutations[x].done;
    assert LastStored(p, Start(init), t);
    assert x in t.ids <==> x in p.batch(0).ids;
  }

  // --------------------------------------------------- whatever the database answers

  /** The same hooks and validation before another database. */
  function With(p: Plan, b: nat -> Batch): Plan {
    p.(batch := b)
  }

  const REJECTING: nat -> Batch := n => Rejected
  const STORING: nat -> Batch := n => Stored(map[])

  lemma {:induction false} EditsWith(p: Plan, b: nat -> Batch, i: nat, h: nat)
    requires i < |p.hooks| && h <= |p.hooks[i]|
    ensures AllEdits(With(p, b), i, h) == AllEdits(p, i, h)
    decreases |p.hooks[i]| - h
  {
    if h < |p.hooks[i]| {
      EditsWith(p, b, i, h + 1);
    }
  }

  lemma AimsWith(p: Plan, b: nat -> Batch, init: seq<Fields>)
    requires |init| == |p.hooks|
    ensures Aims(With(p, b), init) == Aims(p, init)
  {
    forall i | 0 <= i < |init| ensures Aims(With(p, b), init)[i] == Aims(p, init)[i] {
      EditsWith(p, b, i, 0);
    }
  }

  lemma {:induction false} ThroughWith(p: Plan, b: nat -> Batch, aims: seq<Fields>, i: nat, h: nat)
    requires |aims| == |p.hooks| && i < |p.hooks| && h <= |p.hooks[i]|
    ensures Through(With(p, b), aims, i, h) == Through(p, aims, i, h)
    decreases |p.hooks[i]| - h
  {
    if h < |p.hooks[i]| {
      ThroughWith(p, b, aims, i, h + 1);
    }
  }

  lemma {:induction false} StopWith(p: Plan, b: nat -> Batch, aims: seq<Fields>, i: nat, h: nat)
    requires |aims| == |p.hooks| && i < |p.hooks| && h <= |p.hooks[i]|
    ensures Stop(With(p, b), aims, i, h) == Stop(p, aims, i, h)
    decreases |p.hooks| - i
  {
    ThroughWith(p, b, aims, i, h);
    if i + 1 < |p.hooks| {
      StopWith(p, b, aims, i + 1, 0);
    }
  }

  lemma {:induction false} VerdictWith(p: Plan, b: nat -> Batch, aims: seq<Fields>, i: nat, h: nat)
    requires |aims| == |p.hooks| && i < |p.hooks| && h <= |p.hooks[i]|
    ensures Verdict(With(p, b), aims, i, h) == Verdict(p, aims, i, h)
    ensures Inside(With(p, b), aims, i) == Inside(p, aims, i)
    decreases |p.hooks| - i, |p.hooks[i]| - h
  {
    if i + 1 < |p.hooks| {
      VerdictWith(p, b, aims, i + 1, 0);
    }
    if h < |p.hooks[i]| {
      VerdictWith(p, b, aims, i, h + 1);
    }
  }

  /** A builder that the database can decide about has nothing further in that decides otherwise. */
  lemma {:induction false} OpenInside(p: Plan, aims: seq<Fields>, i: nat, h: nat)
    requires |aims| == |p.hooks| && i < |p.hooks| && h <= |p.hooks[i]| && Verdict(p, aims, i, h).None?
    ensures Inside(p, aims, i).None? && Stop(p, aims, i, h) == |p.hooks|
    decreases |p.hooks[i]| - h
  {
    if h < |p.hooks[i]| {
      OpenInside(p, aims, i, h + 1);
    }
  }

  lemma StoresWith(p: Plan, aims: seq<Fields>)
    requires |aims| == |p.hooks| > 0
    ensures !Stores(With(p, REJECTING), aims)
    ensures Stores(With(p, STORING), aims) <==> AllThrough(p, aims)
  {
    forall i | 0 <= i < |p.hooks| ensures Through(With(p, STORING), aims, i, 0) == Through(p, aims, i, 0) {
      ThroughWith(p, STORING, aims, i, 0);
    }
    assert STORING(0).Stored?;
    assert AnyStored(With(p, STORING), 0, Budget(With(p, STORING), aims, 0, 0)) by {
      assert With(p, STORING).batch(0).Stored?;
    }
  }

  /**
   * The hooks of builder `y` report success whatever the database answers, and some answer leaves the builder without
   * one: either it is not let through, or what is inside its hooks does not report success on its own.
   */
  predicate MayHide(p: Plan, aims: seq<Fields>, y: nat)
    requires |aims| == |p.hooks| && y < |p.hooks|
  {
    && y <= Stop(p, aims, 0, 0) && Verdict(p, aims, y, 0) == Some(true)
    && (y == Stop(p, aims, 0, 0) || Inside(p, aims, y) != Some(true))
  }

  lemma HidesWith(p: Plan, b: nat -> Batch, aims: seq<Fields>, y: nat)
    requires |aims| == |p.hooks| && y < |p.hooks|
    ensures Hides(With(p, b), aims, y) ==> MayHide(p, aims, y)
    ensures MayHide(p, aims, y) ==> Hides(With(p, REJECTING), aims, y)
  {
    StopWith(p, b, aims, 0, 0);
    VerdictWith(p, b, aims, y, 0);
    StopWith(p, REJECTING, aims, 0, 0);
    VerdictWith(p, REJECTING, aims, y, 0);
    StoresWith(p, aims);
    if Verdict(p, aims, y, 0).None? {
      OpenInside(p, aims, y, 0);
      StopBeyond(p, aims, y);
    }
  }

  lemma StopBeyond(p: Plan, aims: seq<Fields>, y: nat)
    requires |aims| == |p.hooks| && y < |p.hooks| && Stop(p, aims, y, 0) == |p.hooks|
    ensures y != Stop(p, aims, 0, 0)
  {
    StopFacts(p, aims, 0);
    StopFacts(p, aims, y);
  }

  /** Hooks and validation alone: the done mutations form a suffix, whatever the database answers, exactly when no
      builder but the first may hide that it was not created. */
  lemma AlwaysSuffixIff(p: Plan, init: seq<Fields>)
    requires |init| == |p.hooks| > 0
    ensures (forall b: nat -> Batch :: Suffix(Run(With(p, b), init).0.mutations))
       <==> forall y | 0 < y < |p.hooks| :: !MayHide(p, Aims(p, init), y)
  {
    var aims := Aims(p, init);
    if y :| 0 < y < |p.hooks| && MayHide(p, aims, y) {
      HidesWith(p, REJECTING, aims, y);
      AimsWith(p, REJECTING, init);
      SaveMarksSuffix(With(p, REJECTING), init);
      assert !Suffix(Run(With(p, REJECTING), init).0.mutations);
    } else {
      forall b: nat -> Batch ensures Suffix(Run(With(p, b), init).0.mutations) {
        AimsWith(p, b, init);
        SaveMarksSuffix(With(p, b), init);
        forall y | 0 < y < |p.hooks| ensures !Hides(With(p, b), aims, y) {
          HidesWith(p, b, aims, y);
        }
      }
    }
  }

  /** There is never more than one insert, whatever the database answers, exactly when some builder is not let through
      or every hook that would try again is told of success by a hook further in. */
  lemma AlwaysInsertsOnceIff(p: Plan, init: seq<Fields>)
    requires |init| == |p.hooks| > 0
    ensures (forall b: nat -> Batch :: |Run(With(p, b), init).0.inserts| <= 1)
       <==> (AllThrough(p, Aims(p, init)) ==>
               forall i, h | 0 <= i < |p.hooks| && 0 <= h < |p.hooks[i]| && Retries(p, i, h) ::
                 Verdict(p, Aims(p, init), i, h + 1) == Some(true))
  {
    var aims := Aims(p, init);
    if i, h :| 0 <= i < |p.hooks| && 0 <= h < |p.hooks[i]| && Retries(p, i, h) && Verdict(p, aims, i, h + 1) != Some(true) {
      RepeatsWith(p, REJECTING, aims, i, h);
      InsertsWith(p, REJECTING, init);
      assert Repeats(With(p, REJECTING), aims, i, h);
    }
    forall b: nat -> Batch
      ensures |Run(With(p, b), init).0.inserts| <= 1
         || (AllThrough(p, aims) && exists i, h | 0 <= i < |p.hooks| && 0 <= h < |p.hooks[i]| ::
               Retries(p, i, h) && Verdict(p, aims, i, h + 1) != Some(true))
      ensures !AllThrough(p, aims) ==> |Run(With(p, b), init).0.inserts| <= 1
    {
      InsertsWith(p, b, init);
      if i, h :| 0 <= i < |p.hooks| && 0 <= h < |p.hooks[i]| && Repeats(With(p, b), aims, i, h) {
        RepeatsWith(p, b, aims, i, h);
      }
    }
  }

  lemma RepeatsWith(p: Plan, b: nat -> Batch, aims: seq<Fields>, i: nat, h: nat)
    requires |aims| == |p.hooks| && i < |p.hooks| && h < |p.hooks[i]|
    ensures Repeats(With(p, b), aims, i, h) ==> Retries(p, i, h) && Verdict(p, aims, i, h + 1) != Some(true)
    ensures Retries(p, i, h) && Verdict(p, aims, i, h + 1) != Some(true) ==> Repeats(With(p, REJECTING), aims, i, h)
  {
    VerdictWith(p, b, aims, i, h + 1);
    VerdictWith(p, REJECTING, aims, i, h + 1);
  }

  lemma InsertsWith(p: Plan, b: nat -> Batch, init: seq<Fields>)
    requires |init| == |p.hooks| > 0
    ensures |Run(With(p, b), init).0.inserts| <= 1
       <==> (AllThrough(p, Aims(p, init)) ==>
               forall i, h | 0 <= i < |p.hooks| && 0 <= h < |p.hooks[i]| :: !Repeats(With(p, b), Aims(p, init), i, h))
  {
    AimsWith(p, b, init);
    SaveInsertsOnceIff(With(p, b), init);
    forall i | 0 <= i < |p.hooks| ensures Through(With(p, b), Aims(p, init), i, 0) == Through(p, Aims(p, init), i, 0) {
      ThroughWith(p, b, Aims(p, init), i, 0);
    }
  }

  ghost predicate Honest(p: Plan, init: seq<Fields>)
    requires |init| == |p.hooks|
  {
    var (t, r) := Run(p, init);
    r.Success? ==> AllDone(t) && AnyStored(p, 0, |t.inserts|)
  }

  lemma {:induction false} OpenThroughout(p: Plan, aims: seq<Fields>, i: nat, y: nat)
    requires |aims| == |p.hooks| && i <= y < |p.hooks| && Verdict(p, aims, i, 0).None?
    ensures Inside(p, aims, y).None?
    decreases y - i
  {
    OpenInside(p, aims, i, 0);
    if i < y {
      OpenThroughout(p, aims, i + 1, y);
    }
  }

  /** Success means that all are done and stored, whatever the database answers, exactly when the outermost hook that
      decides does not report success on its own. */
  lemma AlwaysHonestIff(p: Plan, init: seq<Fields>)
    requires |init| == |p.hooks| > 0
    ensures (forall b: nat -> Batch :: Honest(With(p, b), init)) <==> Verdict(p, Aims(p, init), 0, 0) != Some(true)
  {
    var aims := Aims(p, init);
    if Verdict(p, aims, 0, 0) == Some(true) {
      DishonestWhenRejecting(p, init);
    } else {
      forall b: nat -> Batch ensures Honest(With(p, b), init) {
        HonestWith(p, b, init);
      }
    }
  }

  lemma DishonestWhenRejecting(p: Plan, init: seq<Fields>)
    requires |init| == |p.hooks| > 0 && Verdict(p, Aims(p, init), 0, 0) == Some(true)
    ensures !Honest(With(p, REJECTING), init)
  {
    AimsWith(p, REJECTING, init);
    VerdictWith(p, REJECTING, Aims(p, init), 0, 0);
    StoresWith(p, Aims(p, init));
    SaveMarks(With(p, REJECTING), init);
    SaveStoresIff(With(p, REJECTING), init);
  }

  lemma HonestWith(p: Plan, b: nat -> Batch, init: seq<Fields>)
    requires |init| == |p.hooks| > 0 && Verdict(p, Aims(p, init), 0, 0) != Some(true)
    ensures Honest(With(p, b), init)
  {
    var q, aims := With(p, b), Aims(p, init);
    AimsWith(p, b, init);
    VerdictWith(p, b, aims, 0, 0);
    SaveMarks(q, init);
    SaveStoresIff(q, init);
    AllThroughStops(q, aims);
    if Run(q, init).1.Success? {
      forall y | 0 <= y < |p.hooks| ensures Marked(q, aims, y) {
        OpenThroughout(q, aims, 0, y);
      }
    }
  }

  // -------------------------------------------------------------------------- the trace

  /** The hooks that the chain enters and passes, in order. */
  function Entered(p: Plan, aims: seq<Fields>, i: nat, h: nat): seq<Event>
    requires |aims| == |p.hooks| && i < |p.hooks| && h <= |p.hooks[i]|
    decreases |p.hooks| - i, |p.hooks[i]| - h
  {
    if h == |p.hooks[i]| then
      if Check(p.schema, aims[i]).None? && i + 1 < |p.hooks| then Entered(p, aims, i + 1, 0) else []
    else if p.hooks[i][h].Forward? then [Pre(i, h)] + Entered(p, aims, i, h + 1)
    else []
  }

  function Flip(e: Event): Event {
    match e
    case Pre(i, h) => Post(i, h)
    case Post(i, h) => Pre(i, h)
    case Insert => Insert
  }

  /** The same hooks on the way out: in reverse. */
  function Mirror(es: seq<Event>): seq<Event> {
    if es == [] then [] else Mirror(es[1..]) + [Flip(es[0])]
  }

  lemma {:induction false} MirrorAppend(e: Event, es: seq<Event>)
    ensures Mirror([e] + es) == Mirror(es) + [Flip(e)]
  {
    assert ([e] + es)[1..] == es;
  }

  ghost predicate Bracketed(p: Plan, aims: seq<Fields>, i: nat, h: nat, before: seq<Event>, after: seq<Event>)
    requires |aims| == |p.hooks| && i < |p.hooks| && h <= |p.hooks[i]|
  {
    var es := Entered(p, aims, i, h);
    after == before + (es + (if Stop(p, aims, i, h) == |p.hooks| then [Insert] else []) + Mirror(es))
  }

  lemma BracketedThroughHook(p: Plan, aims: seq<Fields>, i: nat, h: nat, before: seq<Event>, after: seq<Event>)
    requires |aims| == |p.hooks| && i < |p.hooks| && h < |p.hooks[i]| && p.hooks[i][h].Forward?
    requires Bracketed(p, aims, i, h + 1, before + [Pre(i, h)], after)
    ensures Bracketed(p, aims, i, h, before, after + [Post(i, h)])
  {
    var rest := Entered(p, aims, i, h + 1);
    var middle := if Stop(p, aims, i, h) == |p.hooks| then [Insert] else [];
    MirrorAppend(Pre(i, h), rest);
    assert before + [Pre(i, h)] + (rest + middle + Mirror(rest)) + [Post(i, h)]
        == before + ([Pre(i, h)] + rest + middle + (Mirror(rest) + [Post(i, h)]));
  }

  /** Hooks that call next at most once: the trace is the hooks entered, the insert if it is reached, and the way back. */
  lemma {:induction false} TraceBracketed(p: Plan, aims: seq<Fields>, i: nat, h: nat, s: State)
    requires CallsNextOnce(p) && Ready(p, aims, i, h, s)
    ensures Bracketed(p, aims, i, h, s.trace, Mutate(p, i, h, s).0.trace)
    decreases |p.hooks| - i, |p.hooks[i]| - h
  {
    if h == |p.hooks[i]| {
      ReadyHere(p, aims, i, s);
      assert Mirror([]) == [];
      if Check(p.schema, aims[i]).None? && i + 1 < |p.hooks| {
        TraceBracketed(p, aims, i + 1, 0, Prepare(s, i));
      }
    } else if p.hooks[i][h].Forward? {
      ReadyInside(p, aims, i, h, s);
      TraceBracketed(p, aims, i, h + 1, Entering(p, i, h, s));
      MutateOnce(p, i, h, s);
      BracketedThroughHook(p, aims, i, h, s.trace, Mutate(p, i, h + 1, Entering(p, i, h, s)).0.trace);
    }
  }

  /** Every hook of every builder, in builder order and then registration order. */
  function AllHooks(p: Plan, i: nat, h: nat): seq<Event>
    requires i < |p.hooks| && h <= |p.hooks[i]|
    decreases |p.hooks| - i, |p.hooks[i]| - h
  {
    if h < |p.hooks[i]| then [Pre(i, h)] + AllHooks(p, i, h + 1)
    else if i + 1 < |p.hooks| then AllHooks(p, i + 1, 0)
    else []
  }

  lemma {:induction false} EnteredAll(p: Plan, aims: seq<Fields>, i: nat, h: nat)
    requires |aims| == |p.hooks| && i < |p.hooks| && h <= |p.hooks[i]|
    requires Stop(p, aims, i, h) == |p.hooks|
    ensures Entered(p, aims, i, h) == AllHooks(p, i, h)
    decreases |p.hooks| - i, |p.hooks[i]| - h
  {
    if h < |p.hooks[i]| {
      EnteredAll(p, aims, i, h + 1);
    } else if i + 1 < |p.hooks| {
      EnteredAll(p, aims, i + 1, 0);
    }
  }

  /** The way out is the way in, read backwards. */
  lemma {:induction false} MirrorAt(es: seq<Event>, k: nat)
    requires k < |es|
    ensures |Mirror(es)| == |es| && Mirror(es)[|es| - 1 - k] == Flip(es[k])
  {
    MirrorLength(es[1..]);
    if k > 0 {
      MirrorAt(es[1..], k - 1);
    }
  }

  lemma {:induction false} MirrorLength(es: seq<Event>)
    ensures |Mirror(es)| == |es|
  {
    if es != [] {
      MirrorLength(es[1..]);
    }
  }

  /** A run that reaches the insert: all pre-hooks in order, one insert, all post-hooks in reverse. */
  lemma SaveTrace(p: Plan, init: seq<Fields>)
    requires |init| == |p.hooks| > 0 && CallsNextOnce(p) && AllThrough(p, Aims(p, init))
    ensures Run(p, init).0.trace == AllHooks(p, 0, 0) + [Insert] + Mirror(AllHooks(p, 0, 0))
  {
    var aims := Aims(p, init);
    StartsReady(p, init);
    TraceBracketed(p, aims, 0, 0, Start(init));
    AllThroughStops(p, aims);
    EnteredAll(p, aims, 0, 0);
  }

  // ------------------------------------------------------------- where promises end

  lemma ShortPlan(p: Plan, m: Fields)
    requires |p.hooks| == 2 && p.hooks[0] == [] && Check(p.schema, m).None?
    ensures var aims := Aims(p, [m, m]);
            && aims[0] == m && (AllEdits(p, 1, 0) == map[] ==> aims[1] == m)
            && Through(p, aims, 0, 0) && Stop(p, aims, 0, 0) == Stop(p, aims, 1, 0)
            && Inside(p, aims, 0) == Verdict(p, aims, 1, 0) == Verdict(p, aims, 0, 0)
  {
    assert Write(m, map[]) == m;
  }

  /** Two builders, the second short-circuited: the first is marked done, the second is not, and nothing is inserted. */
  lemma ShortCircuitBreaksSuffix(p: Plan, m: Fields)
    requires p.hooks == [[], [ShortCircuit]] && Check(p.schema, m).None?
    ensures var (t, r) := Run(p, [m, m]);
            r.Success? && t.inserts == [] && t.mutations[0].done && !t.mutations[1].done && !Suffix(t.mutations)
  {
    var aims := Aims(p, [m, m]);
    ShortPlan(p, m);
    SaveMarks(p, [m, m]);
    InsertsAreComplete(p, [m, m]);
    assert !Through(p, aims, 1, 0) && Verdict(p, aims, 1, 0) == Some(true);
    assert Marked(p, aims, 0) && !Marked(p, aims, 1);
  }

  /** Two builders, the second recovering from a rejected insert: the save reports success, the first is done, the second not. */
  lemma RecoverBreaksSuffix(p: Plan, m: Fields)
    requires p.hooks == [[], [Forward(map[], Recover)]] && Check(p.schema, m).None? && p.batch(0).Rejected?
    ensures var (t, r) := Run(p, [m, m]);
            r.Success? && t.mutations[0].done && !t.mutations[1].done && !Suffix(t.mutations) && !AnyStored(p, 0, |t.inserts|)
  {
    var aims := Aims(p, [m, m]);
    ShortPlan(p, m);
    SaveMarks(p, [m, m]);
    SaveStoresIff(p, [m, m]);
    assert Budget(p, aims, 1, 1) == 1 && Budget(p, aims, 1, 0) == 1 && Budget(p, aims, 0, 0) == 1;
    assert !Stores(p, aims) && Verdict(p, aims, 1, 0) == Some(true);
    assert AllEdits(p, 1, 0) == map[] + AllEdits(p, 1, 1) && Through(p, aims, 1, 1) && Through(p, aims, 1, 0);
    assert Marked(p, aims, 0) && !Marked(p, aims, 1);
  }

  /** A hook that calls next again after an error: a rejected batch is sent twice. */
  lemma RetryInsertsTwice(p: Plan, m: Fields)
    requires p.hooks == [[Forward(map[], Retry)]] && Check(p.schema, m).None? && p.batch(0).Rejected?
    ensures |Run(p, [m]).0.inserts| > 1
  {
    var aims := Aims(p, [m]);
    SaveInsertsOnceIff(p, [m]);
    assert AllEdits(p, 0, 0) == map[] + AllEdits(p, 0, 1) && Write(m, map[]) == m;
    assert Through(p, aims, 0, 1) && Through(p, aims, 0, 0);
    assert Repeats(p, aims, 0, 0);
  }
}
