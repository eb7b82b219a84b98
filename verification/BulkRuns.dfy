/** Every run of a bulk save, read off the plan: what is inserted, who is marked done, and what is reported. */
module BulkRuns {
  import opened Basics
  import opened BulkCreate

  // ---------------------------------------------------------------- reading a plan

  /** What the hooks of builder `i` from `h` on write, up to one that does not pass the mutation on. */
  function AllEdits(p: Plan, i: nat, h: nat): Edits
    requires i < |p.hooks| && h <= |p.hooks[i]|
    decreases |p.hooks[i]| - h
  {
    if h < |p.hooks[i]| && p.hooks[i][h].Forward? then p.hooks[i][h].edits + AllEdits(p, i, h + 1) else map[]
  }

  /** The fields that each builder's check sees, however often it is reached. */
  function Aims(p: Plan, init: seq<Fields>): (aims: seq<Fields>)
    requires |init| == |p.hooks|
    ensures |aims| == |init|
  {
    seq(|init|, i requires 0 <= i < |init| => Write(init[i], AllEdits(p, i, 0)))
  }

  /** Nothing in builder `i` from hook `h` on keeps its mutation from being created. */
  predicate Through(p: Plan, aims: seq<Fields>, i: nat, h: nat)
    requires |aims| == |p.hooks| && i < |p.hooks| && h <= |p.hooks[i]|
    decreases |p.hooks[i]| - h
  {
    if h == |p.hooks[i]| then Check(p.schema, aims[i]).None? else p.hooks[i][h].Forward? && Through(p, aims, i, h + 1)
  }

  /** The first builder that does not let its mutation through; the number of builders if all do. */
  function Stop(p: Plan, aims: seq<Fields>, i: nat, h: nat): (stop: nat)
    requires |aims| == |p.hooks| && i < |p.hooks| && h <= |p.hooks[i]|
    ensures i <= stop <= |p.hooks|
    decreases |p.hooks| - i
  {
    if !Through(p, aims, i, h) then i
    else if i + 1 < |p.hooks| then Stop(p, aims, i + 1, 0)
    else |p.hooks|
  }

  /**
   * What the chain from hook `h` of builder `i` on reports: success, failure, or (`None`) whatever the insert reports.
   * The outermost hook that fails or recovers decides, or else the place where the chain ends.
   */
  function Verdict(p: Plan, aims: seq<Fields>, i: nat, h: nat): (v: Option<bool>)
    requires |aims| == |p.hooks| && i < |p.hooks| && h <= |p.hooks[i]|
    ensures v.None? ==> Stop(p, aims, i, h) == |p.hooks|
    decreases |p.hooks| - i, |p.hooks[i]| - h, 1
  {
    if h == |p.hooks[i]| then (if Check(p.schema, aims[i]).Some? then Some(false) else Inside(p, aims, i))
    else
      match p.hooks[i][h]
      case Veto => Some(false)
      case ShortCircuit => Some(true)
      case Forward(_, after) =>
        if after.Fail? then Some(false) else if after.Recover? then Some(true) else Verdict(p, aims, i, h + 1)
  }

  /** What the chain reports to builder `i` itself, inside all its hooks. */
  function Inside(p: Plan, aims: seq<Fields>, i: nat): (v: Option<bool>)
    requires |aims| == |p.hooks| && i < |p.hooks|
    ensures v.None? && i + 1 < |p.hooks| ==> Stop(p, aims, i + 1, 0) == |p.hooks|
    decreases |p.hooks| - i, 0, 0
  {
    if i + 1 < |p.hooks| then Verdict(p, aims, i + 1, 0) else None
  }

  predicate Says(v: Option<bool>, stored: bool) {
    if v.Some? then v.value else stored
  }

  /** How many inserts are tried when none is stored: a retry hook doubles them, unless it is told of a success. */
  function Budget(p: Plan, aims: seq<Fields>, i: nat, h: nat): (b: nat)
    requires |aims| == |p.hooks| && i < |p.hooks| && h <= |p.hooks[i]|
    ensures b > 0
    decreases |p.hooks| - i, |p.hooks[i]| - h
  {
    if h == |p.hooks[i]| then (if i + 1 < |p.hooks| then Budget(p, aims, i + 1, 0) else 1)
    else
      var b := Budget(p, aims, i, h + 1);
      if Retries(p, i, h) && Verdict(p, aims, i, h + 1) != Some(true) then 2 * b else b
  }

  predicate Retries(p: Plan, i: nat, h: nat)
    requires i < |p.hooks| && h < |p.hooks[i]|
  {
    p.hooks[i][h].Forward? && p.hooks[i][h].after.Retry?
  }

  /** No hook calls the rest of the chain twice. */
  predicate CallsNextOnce(p: Plan) {
    forall i, h | 0 <= i < |p.hooks| && 0 <= h < |p.hooks[i]| :: !Retries(p, i, h)
  }

  /** One of the inserts numbered from `k` up to `n` is stored. */
  predicate AnyStored(p: Plan, k: nat, n: nat) {
    exists j | k <= j < n :: p.batch(j).Stored?
  }

  predicate AllThrough(p: Plan, aims: seq<Fields>)
    requires |aims| == |p.hooks|
  {
    forall i | 0 <= i < |p.hooks| :: Through(p, aims, i, 0)
  }

  /** Whether any insert of the run is stored. */
  predicate Stores(p: Plan, aims: seq<Fields>)
    requires |aims| == |p.hooks| > 0
  {
    AllThrough(p, aims) && AnyStored(p, 0, Budget(p, aims, 0, 0))
  }

  // -------------------------------------------------------------------- one hook

  /** The state in which hook `h` calls the rest of the chain. */
  function Entering(p: Plan, i: nat, h: nat, s: State): State
    requires Shaped(p, s) && i < |p.hooks| && h < |p.hooks[i]| && p.hooks[i][h].Forward?
  {
    Log(Edit(s, i, p.hooks[i][h].edits), Pre(i, h))
  }

  /** The state in which a hook calls it again. */
  function Again(s: State, i: nat, h: nat): State {
    Log(Log(s, Post(i, h)), Pre(i, h))
  }

  lemma MutateOnce(p: Plan, i: nat, h: nat, s: State)
    requires Shaped(p, s) && i < |p.hooks| && h < |p.hooks[i]| && p.hooks[i][h].Forward?
    ensures var (t, r) := Mutate(p, i, h + 1, Entering(p, i, h, s));
            !(Retries(p, i, h) && r.Failure?) ==>
              && Mutate(p, i, h, s).0 == Log(t, Post(i, h))
              && (Mutate(p, i, h, s).1.Success?
                  <==> p.hooks[i][h].after.Recover? || (!p.hooks[i][h].after.Fail? && r.Success?))
  {
  }

  lemma MutateTwice(p: Plan, i: nat, h: nat, s: State)
    requires Shaped(p, s) && i < |p.hooks| && h < |p.hooks[i]| && Retries(p, i, h)
    requires Mutate(p, i, h + 1, Entering(p, i, h, s)).1.Failure?
    ensures var t := Mutate(p, i, h + 1, Entering(p, i, h, s)).0;
            var (u, r) := Mutate(p, i, h + 1, Again(t, i, h));
            Mutate(p, i, h, s) == (Log(u, Post(i, h)), r)
  {
  }

  /** What builder `i` calls once its own mutation is through. */
  function Inner(p: Plan, i: nat, s: State): (r: (State, Outcome))
    requires Shaped(p, s) && i < |p.hooks|
    ensures Shaped(p, r.0)
  {
    if i + 1 < |p.hooks| then Mutate(p, i + 1, 0, Prepare(s, i)) else BatchInsert(p, Prepare(s, i))
  }

  /** The state in which builder `i` returns. */
  function Around(t: State, i: nat, r: Outcome): State
    requires i < |t.mutations| == |t.nodes|
  {
    if r.Success? then Finish(t, i) else t
  }

  lemma MutateHere(p: Plan, i: nat, s: State)
    requires Shaped(p, s) && i < |p.hooks|
    ensures var (u, o) := Mutate(p, i, |p.hooks[i]|, s);
            if Check(p.schema, s.mutations[i].fields).Some? then u == s && o.Failure?
            else
              var (t, r) := Inner(p, i, s);
              u == Around(t, i, r) && (o.Success? <==> r.Success?)
  {
  }

  // ------------------------------------------------------ what a mutator leaves alone

  /** Builders before `i` are as they were, and nothing that was logged is forgotten. */
  ghost predicate Kept(s: State, t: State, i: nat)
    requires i <= |s.mutations| == |s.specs| == |s.nodes| && i <= |t.mutations| == |t.specs| == |t.nodes|
  {
    && t.mutations[..i] == s.mutations[..i] && t.specs[..i] == s.specs[..i] && t.nodes[..i] == s.nodes[..i]
    && s.trace <= t.trace && s.inserts <= t.inserts
  }

  /** A mutator leaves the builders before it alone, and forgets nothing it logged. */
  lemma {:induction false} EarlierUntouched(p: Plan, i: nat, h: nat, s: State)
    requires Shaped(p, s) && i < |p.hooks| && h <= |p.hooks[i]|
    ensures Kept(s, Mutate(p, i, h, s).0, i)
    decreases |p.hooks| - i, |p.hooks[i]| - h, 1
  {
    if h == |p.hooks[i]| {
      EarlierUntouchedBelow(p, i, s);
    } else if p.hooks[i][h].Forward? {
      EarlierUntouched(p, i, h + 1, Entering(p, i, h, s));
      var (t, r) := Mutate(p, i, h + 1, Entering(p, i, h, s));
      if Retries(p, i, h) && r.Failure? {
        EarlierUntouched(p, i, h + 1, Again(t, i, h));
      }
    }
  }

  lemma {:induction false} EarlierUntouchedBelow(p: Plan, i: nat, s: State)
    requires Shaped(p, s) && i < |p.hooks|
    ensures Kept(s, Mutate(p, i, |p.hooks[i]|, s).0, i)
    decreases |p.hooks| - i, 0, 0
  {
    if Check(p.schema, s.mutations[i].fields).None? && i + 1 < |p.hooks| {
      EarlierUntouched(p, i + 1, 0, Prepare(s, i));
      KeptBelow(Prepare(s, i), Mutate(p, i + 1, 0, Prepare(s, i)).0, i);
    }
  }

  lemma KeptBelow(s: State, t: State, i: nat)
    requires i < |s.mutations| == |s.specs| == |s.nodes| && i < |t.mutations| == |t.specs| == |t.nodes|
    requires Kept(s, t, i + 1)
    ensures Kept(s, t, i) && t.mutations[i] == s.mutations[i] && t.specs[i] == s.specs[i] && t.nodes[i] == s.nodes[i]
  {
    assert s.mutations[..i] == s.mutations[..i + 1][..i] && t.mutations[..i] == t.mutations[..i + 1][..i];
    assert s.specs[..i] == s.specs[..i + 1][..i] && t.specs[..i] == t.specs[..i + 1][..i];
    assert s.nodes[..i] == s.nodes[..i + 1][..i] && t.nodes[..i] == t.nodes[..i + 1][..i];
    assert s.mutations[..i + 1][i] == s.mutations[i] && t.mutations[..i + 1][i] == t.mutations[i];
    assert s.specs[..i + 1][i] == s.specs[i] && t.specs[..i + 1][i] == t.specs[i];
    assert s.nodes[..i + 1][i] == s.nodes[i] && t.nodes[..i + 1][i] == t.nodes[i];
  }

  lemma KeptAt(s: State, t: State, i: nat, x: nat)
    requires x < i <= |s.mutations| == |s.specs| == |s.nodes| && i <= |t.mutations| == |t.specs| == |t.nodes|
    requires Kept(s, t, i)
    ensures t.mutations[x] == s.mutations[x] && t.specs[x] == s.specs[x] && t.nodes[x] == s.nodes[x]
  {
    assert s.mutations[..i][x] == s.mutations[x] && t.mutations[..i][x] == t.mutations[x];
    assert s.specs[..i][x] == s.specs[x] && t.specs[..i][x] == t.specs[x];
    assert s.nodes[..i][x] == s.nodes[x] && t.nodes[..i][x] == t.nodes[x];
  }

  // ------------------------------------------------- every check sees the same fields

  /** Once the remaining hooks have written, every builder from `i` on holds what it aims at. */
  ghost predicate Ready(p: Plan, aims: seq<Fields>, i: nat, h: nat, s: State) {
    && Shaped(p, s) && |aims| == |p.hooks| && i < |p.hooks| && h <= |p.hooks[i]|
    && Write(s.mutations[i].fields, AllEdits(p, i, h)) == aims[i]
    && forall x | i < x < |p.hooks| :: Write(s.mutations[x].fields, AllEdits(p, x, 0)) == aims[x]
  }

  /** Writing the same edits again changes nothing. */
  lemma EditsSettle(before: Fields, after: Fields, edits: Edits, rest: Edits, aim: Fields)
    ensures Write(before, edits + rest) == Write(Write(before, edits), rest)
    ensures Write(before, edits + rest) == aim && Write(after, rest) == aim ==> Write(after, edits + rest) == aim
  {
  }

  lemma ReadyInside(p: Plan, aims: seq<Fields>, i: nat, h: nat, s: State)
    requires Ready(p, aims, i, h, s) && h < |p.hooks[i]| && p.hooks[i][h].Forward?
    ensures Ready(p, aims, i, h + 1, Entering(p, i, h, s))
  {
    EditsSettle(s.mutations[i].fields, map[], p.hooks[i][h].edits, AllEdits(p, i, h + 1), aims[i]);
  }

  lemma ReadyOutside(p: Plan, aims: seq<Fields>, i: nat, h: nat, s: State, t: State)
    requires Ready(p, aims, i, h, s) && h < |p.hooks[i]| && p.hooks[i][h].Forward?
    requires Ready(p, aims, i, h + 1, t)
    ensures Ready(p, aims, i, h, t)
  {
    EditsSettle(s.mutations[i].fields, t.mutations[i].fields, p.hooks[i][h].edits, AllEdits(p, i, h + 1), aims[i]);
  }

  lemma ReadyHere(p: Plan, aims: seq<Fields>, i: nat, s: State)
    requires i < |p.hooks| && Ready(p, aims, i, |p.hooks[i]|, s)
    ensures s.mutations[i].fields == aims[i]
  {
    assert Write(s.mutations[i].fields, map[]) == s.mutations[i].fields;
  }

  /** After any pass of the chain, it is as ready for another one. */
  lemma {:induction false} StaysReady(p: Plan, aims: seq<Fields>, i: nat, h: nat, s: State)
    requires Ready(p, aims, i, h, s)
    ensures Ready(p, aims, i, h, Mutate(p, i, h, s).0)
    decreases |p.hooks| - i, |p.hooks[i]| - h, 1
  {
    if h == |p.hooks[i]| {
      StaysReadyBelow(p, aims, i, s);
    } else if p.hooks[i][h].Forward? {
      ReadyInside(p, aims, i, h, s);
      StaysReady(p, aims, i, h + 1, Entering(p, i, h, s));
      var (t, r) := Mutate(p, i, h + 1, Entering(p, i, h, s));
      if Retries(p, i, h) && r.Failure? {
        StaysReady(p, aims, i, h + 1, Again(t, i, h));
        MutateTwice(p, i, h, s);
      } else {
        MutateOnce(p, i, h, s);
      }
      ReadyOutside(p, aims, i, h, s, Mutate(p, i, h, s).0);
    }
  }

  lemma ReadyAround(p: Plan, aims: seq<Fields>, i: nat, s: State, t: State)
    requires i < |p.hooks| && Ready(p, aims, i, |p.hooks[i]|, s) && Shaped(p, t)
    requires t.mutations[i].fields == s.mutations[i].fields
    requires forall x | i < x < |p.hooks| :: Write(t.mutations[x].fields, AllEdits(p, x, 0)) == aims[x]
    ensures Ready(p, aims, i, |p.hooks[i]|, t) && Ready(p, aims, i, |p.hooks[i]|, Finish(t, i))
  {
  }

  lemma {:induction false} StaysReadyBelow(p: Plan, aims: seq<Fields>, i: nat, s: State)
    requires i < |p.hooks| && Ready(p, aims, i, |p.hooks[i]|, s)
    ensures Ready(p, aims, i, |p.hooks[i]|, Mutate(p, i, |p.hooks[i]|, s).0)
    decreases |p.hooks| - i, 0, 0
  {
    if Check(p.schema, s.mutations[i].fields).None? {
      var s1 := Prepare(s, i);
      if i + 1 < |p.hooks| {
        StaysReady(p, aims, i + 1, 0, s1);
        EarlierUntouched(p, i + 1, 0, s1);
        KeptAt(s1, Mutate(p, i + 1, 0, s1).0, i + 1, i);
        ReadyAround(p, aims, i, s, Mutate(p, i + 1, 0, s1).0);
      } else {
        ReadyAround(p, aims, i, s, BatchInsert(p, s1).0);
      }
    }
  }

  // ----------------------------------------------------------------- what is inserted

  /** The specs and the batches of one pass. */
  ghost predicate Wrote(p: Plan, aims: seq<Fields>, i: nat, h: nat, s: State, t: State)
    requires |aims| == |p.hooks| == |s.specs| == |t.specs| && i < |p.hooks| && h <= |p.hooks[i]|
  {
    var stop := Stop(p, aims, i, h);
    && (forall x | 0 <= x < |p.hooks| :: t.specs[x] == if i <= x < stop then Some(aims[x]) else s.specs[x])
    && |s.inserts| <= |t.inserts|
    && (|s.inserts| < |t.inserts| <==> stop == |p.hooks|)
    && (forall j | |s.inserts| <= j < |t.inserts| :: t.inserts[j] == t.specs)
    && (forall j | 0 <= j < |s.inserts| :: t.inserts[j] == s.inserts[j])
  }

  lemma WroteTwice(p: Plan, aims: seq<Fields>, i: nat, h: nat, s: State, t: State, u: State)
    requires Shaped(p, s) && |aims| == |p.hooks| && i < |p.hooks| && h <= |p.hooks[i]| && Shaped(p, t) && Shaped(p, u)
    requires Wrote(p, aims, i, h, s, t) && Wrote(p, aims, i, h, Again(t, i, h), u)
    ensures Wrote(p, aims, i, h, s, u)
  {
    assert t.specs == u.specs;
  }

  lemma WroteOutside(p: Plan, aims: seq<Fields>, i: nat, h: nat, s: State, t: State)
    requires Shaped(p, s) && |aims| == |p.hooks| && i < |p.hooks| && Shaped(p, t) && h < |p.hooks[i]| && p.hooks[i][h].Forward?
    requires Wrote(p, aims, i, h + 1, Entering(p, i, h, s), t)
    ensures Wrote(p, aims, i, h, s, Log(t, Post(i, h)))
  {
  }

  lemma {:induction false} Writes(p: Plan, aims: seq<Fields>, i: nat, h: nat, s: State)
    requires Ready(p, aims, i, h, s)
    ensures Wrote(p, aims, i, h, s, Mutate(p, i, h, s).0)
    decreases |p.hooks| - i, |p.hooks[i]| - h, 1
  {
    if h == |p.hooks[i]| {
      WritesBelow(p, aims, i, s);
    } else if p.hooks[i][h].Forward? {
      var s1 := Entering(p, i, h, s);
      ReadyInside(p, aims, i, h, s);
      Writes(p, aims, i, h + 1, s1);
      var (t, r) := Mutate(p, i, h + 1, s1);
      if Retries(p, i, h) && r.Failure? {
        StaysReady(p, aims, i, h + 1, s1);
        Writes(p, aims, i, h + 1, Again(t, i, h));
        MutateTwice(p, i, h, s);
        t := Mutate(p, i, h + 1, Again(t, i, h)).0;
        WroteTwice(p, aims, i, h + 1, s1, Mutate(p, i, h + 1, s1).0, t);
      } else {
        MutateOnce(p, i, h, s);
      }
      WroteOutside(p, aims, i, h, s, t);
    }
  }

  lemma {:induction false} WritesBelow(p: Plan, aims: seq<Fields>, i: nat, s: State)
    requires i < |p.hooks| && Ready(p, aims, i, |p.hooks[i]|, s)
    ensures Wrote(p, aims, i, |p.hooks[i]|, s, Mutate(p, i, |p.hooks[i]|, s).0)
    decreases |p.hooks| - i, 0, 0
  {
    ReadyHere(p, aims, i, s);
    if Check(p.schema, aims[i]).None? && i + 1 < |p.hooks| {
      Writes(p, aims, i + 1, 0, Prepare(s, i));
    }
  }

  lemma InsertsGrow(p: Plan, aims: seq<Fields>, i: nat, h: nat, s: State)
    requires Ready(p, aims, i, h, s)
    ensures var t := Mutate(p, i, h, s).0;
            |s.inserts| <= |t.inserts| && (|s.inserts| < |t.inserts| <==> Stop(p, aims, i, h) == |p.hooks|)
  {
    Writes(p, aims, i, h, s);
  }

  // -------------------------------------------------- who is done, and what is reported

  /** How often a pass inserts, whether it reports success, and whom it marks. */
  ghost predicate Fared(p: Plan, aims: seq<Fields>, i: nat, h: nat, s: State, t: State, r: Outcome)
    requires |aims| == |p.hooks| == |s.mutations| == |t.mutations| && i < |p.hooks| && h <= |p.hooks[i]|
  {
    var stop, k, n := Stop(p, aims, i, h), |s.inserts|, |t.inserts|;
    && n <= k + Budget(p, aims, i, h)
    && (stop == |p.hooks| && !AnyStored(p, k, n) ==> n == k + Budget(p, aims, i, h))
    && (r.Success? <==> Says(Verdict(p, aims, i, h), AnyStored(p, k, n)))
    && (r.Success? <==> Says(Verdict(p, aims, i, h), k < n && p.batch(n - 1).Stored?))
    && forall x | 0 <= x < |p.hooks| :: t.mutations[x].done
         <==> s.mutations[x].done || (i <= x < stop && Says(Inside(p, aims, x), AnyStored(p, k, n)))
  }

  lemma AnyStoredSplit(p: Plan, k: nat, m: nat, n: nat)
    requires k <= m <= n
    ensures AnyStored(p, k, n) <==> AnyStored(p, k, m) || AnyStored(p, m, n)
  {
  }

  lemma FaredTwice(p: Plan, aims: seq<Fields>, i: nat, h: nat, s: State, t: State, u: State, r: Outcome, r2: Outcome)
    requires Shaped(p, s) && |aims| == |p.hooks| && i < |p.hooks| && h < |p.hooks[i]| && Retries(p, i, h) && Shaped(p, t) && Shaped(p, u)
    requires Wrote(p, aims, i, h + 1, s, t) && Wrote(p, aims, i, h + 1, Again(t, i, h), u)
    requires Fared(p, aims, i, h + 1, s, t, r) && r.Failure? && Fared(p, aims, i, h + 1, Again(t, i, h), u, r2)
    ensures Fared(p, aims, i, h, s, Log(u, Post(i, h)), r2)
  {
    AnyStoredSplit(p, |s.inserts|, |t.inserts|, |u.inserts|);
  }

  lemma FaredOnce(p: Plan, aims: seq<Fields>, i: nat, h: nat, s: State, t: State, r: Outcome, r2: Outcome)
    requires Shaped(p, s) && |aims| == |p.hooks| && i < |p.hooks| && h < |p.hooks[i]| && p.hooks[i][h].Forward? && Shaped(p, t)
    requires Wrote(p, aims, i, h + 1, Entering(p, i, h, s), t) && Fared(p, aims, i, h + 1, Entering(p, i, h, s), t, r)
    requires !(Retries(p, i, h) && r.Failure?)
    requires r2.Success? <==> p.hooks[i][h].after.Recover? || (!p.hooks[i][h].after.Fail? && r.Success?)
    ensures Fared(p, aims, i, h, s, Log(t, Post(i, h)), r2)
  {
  }

  lemma {:induction false} Fares(p: Plan, aims: seq<Fields>, i: nat, h: nat, s: State)
    requires Ready(p, aims, i, h, s)
    ensures Fared(p, aims, i, h, s, Mutate(p, i, h, s).0, Mutate(p, i, h, s).1)
    decreases |p.hooks| - i, |p.hooks[i]| - h, 1
  {
    if h == |p.hooks[i]| {
      FaresBelow(p, aims, i, s);
    } else if p.hooks[i][h].Forward? {
      var s1 := Entering(p, i, h, s);
      ReadyInside(p, aims, i, h, s);
      Writes(p, aims, i, h + 1, s1);
      Fares(p, aims, i, h + 1, s1);
      var (t, r) := Mutate(p, i, h + 1, s1);
      if Retries(p, i, h) && r.Failure? {
        StaysReady(p, aims, i, h + 1, s1);
        Writes(p, aims, i, h + 1, Again(t, i, h));
        Fares(p, aims, i, h + 1, Again(t, i, h));
        MutateTwice(p, i, h, s);
        var (u, r2) := Mutate(p, i, h + 1, Again(t, i, h));
        FaredTwice(p, aims, i, h, s1, t, u, r, r2);
        SameMarks(p, aims, i, h, s1, s, Log(u, Post(i, h)), r2);
      } else {
        MutateOnce(p, i, h, s);
        FaredOnce(p, aims, i, h, s, t, r, Mutate(p, i, h, s).1);
      }
    }
  }

  /** Entering a hook inserts nothing and marks nobody. */
  lemma SameMarks(p: Plan, aims: seq<Fields>, i: nat, h: nat, s: State, s0: State, t: State, r: Outcome)
    requires Shaped(p, s) && Shaped(p, s0) && Shaped(p, t) && |aims| == |p.hooks| && i < |p.hooks| && h <= |p.hooks[i]|
    requires s.inserts == s0.inserts && forall x | 0 <= x < |p.hooks| :: s.mutations[x].done == s0.mutations[x].done
    requires Fared(p, aims, i, h, s, t, r)
    ensures Fared(p, aims, i, h, s0, t, r)
  {
  }

  lemma {:induction false} FaresBelow(p: Plan, aims: seq<Fields>, i: nat, s: State)
    requires i < |p.hooks| && Ready(p, aims, i, |p.hooks[i]|, s)
    ensures Fared(p, aims, i, |p.hooks[i]|, s, Mutate(p, i, |p.hooks[i]|, s).0, Mutate(p, i, |p.hooks[i]|, s).1)
    decreases |p.hooks| - i, 0, 0
  {
    ReadyHere(p, aims, i, s);
    MutateHere(p, i, s);
    var (u, o) := Mutate(p, i, |p.hooks[i]|, s);
    if Check(p.schema, aims[i]).Some? {
      FaredBlocked(p, aims, i, s, o);
    } else if i + 1 < |p.hooks| {
      var s1 := Prepare(s, i);
      Fares(p, aims, i + 1, 0, s1);
      EarlierUntouched(p, i + 1, 0, s1);
      KeptAt(s1, Mutate(p, i + 1, 0, s1).0, i + 1, i);
      FaredAround(p, aims, i, s, Mutate(p, i + 1, 0, s1).0, Mutate(p, i + 1, 0, s1).1, o);
    } else {
      FaredLast(p, aims, i, s, o);
    }
  }

  lemma FaredBlocked(p: Plan, aims: seq<Fields>, i: nat, s: State, o: Outcome)
    requires Shaped(p, s) && |aims| == |p.hooks| && i < |p.hooks| && Check(p.schema, aims[i]).Some? && o.Failure?
    ensures Fared(p, aims, i, |p.hooks[i]|, s, s, o)
  {
  }

  lemma FaredAround(p: Plan, aims: seq<Fields>, i: nat, s: State, t: State, r: Outcome, o: Outcome)
    requires Shaped(p, s) && Shaped(p, t) && |aims| == |p.hooks| && i + 1 < |p.hooks| && Check(p.schema, aims[i]).None?
    requires Fared(p, aims, i + 1, 0, Prepare(s, i), t, r) && t.mutations[i] == s.mutations[i] && (o.Success? <==> r.Success?)
    ensures Fared(p, aims, i, |p.hooks[i]|, s, Around(t, i, r), o)
  {
    assert Stop(p, aims, i, |p.hooks[i]|) == Stop(p, aims, i + 1, 0);
    assert Inside(p, aims, i) == Verdict(p, aims, i, |p.hooks[i]|);
  }

  lemma FaredLast(p: Plan, aims: seq<Fields>, i: nat, s: State, o: Outcome)
    requires Shaped(p, s) && |aims| == |p.hooks| == i + 1 && Check(p.schema, aims[i]).None?
    requires o.Success? <==> BatchInsert(p, Prepare(s, i)).1.Success?
    ensures Fared(p, aims, i, |p.hooks[i]|, s, Around(BatchInsert(p, Prepare(s, i)).0, i, BatchInsert(p, Prepare(s, i)).1), o)
  {
    var k := |s.inserts|;
    assert AnyStored(p, k, k + 1) <==> p.batch(k).Stored?;
  }

  // --------------------------------------------------------------- the nodes and their IDs

  /** The last insert of a pass is stored. */
  predicate LastStored(p: Plan, s: State, t: State) {
    |s.inserts| < |t.inserts| && p.batch(|t.inserts| - 1).Stored?
  }

  function NodeOf(p: Plan, aims: seq<Fields>, x: nat, ids: map<nat, int>, last: bool): Node
    requires |aims| == |p.hooks| && x < |p.hooks|
  {
    Node(aims[x], if Says(Inside(p, aims, x), last) && x in ids then ids[x] else 0)
  }

  /** The nodes of one pass: whoever is told of success by the last insert, or in spite of it, has its ID, if it got one. */
  ghost predicate Built(p: Plan, aims: seq<Fields>, i: nat, h: nat, s: State, t: State)
    requires |aims| == |p.hooks| == |s.nodes| == |t.nodes| && i < |p.hooks| && h <= |p.hooks[i]|
  {
    var stop := Stop(p, aims, i, h);
    forall x | 0 <= x < |p.hooks| ::
      t.nodes[x] == if i <= x < stop then Some(NodeOf(p, aims, x, t.ids, LastStored(p, s, t))) else s.nodes[x]
  }

  /** The IDs after inserts `k` to `n`: those of the last one, if it is stored, and none that no insert gave. */
  ghost predicate Numbered(p: Plan, k: nat, n: nat, before: map<nat, int>, after: map<nat, int>) {
    && (k < n && p.batch(n - 1).Stored? ==>
          forall x | x in p.batch(n - 1).ids :: x in after && after[x] == p.batch(n - 1).ids[x])
    && (forall x | x in after :: x in before || Given(p, k, n, x))
  }

  predicate Given(p: Plan, k: nat, n: nat, x: nat) {
    exists j | k <= j < n :: p.batch(j).Stored? && x in p.batch(j).ids
  }

  lemma NumberedTwice(p: Plan, k: nat, m: nat, n: nat, before: map<nat, int>, between: map<nat, int>, after: map<nat, int>)
    requires k <= m <= n && Numbered(p, k, m, before, between) && Numbered(p, m, n, between, after)
    requires m == n ==> k == m
    ensures Numbered(p, k, n, before, after)
  {
  }

  lemma {:induction false} Numbers(p: Plan, aims: seq<Fields>, i: nat, h: nat, s: State)
    requires Ready(p, aims, i, h, s)
    ensures var t := Mutate(p, i, h, s).0; Numbered(p, |s.inserts|, |t.inserts|, s.ids, t.ids)
    decreases |p.hooks| - i, |p.hooks[i]| - h, 1
  {
    if h == |p.hooks[i]| {
      NumbersBelow(p, aims, i, s);
    } else if p.hooks[i][h].Forward? {
      var s1 := Entering(p, i, h, s);
      ReadyInside(p, aims, i, h, s);
      Numbers(p, aims, i, h + 1, s1);
      var (t, r) := Mutate(p, i, h + 1, s1);
      if Retries(p, i, h) && r.Failure? {
        InsertsGrow(p, aims, i, h + 1, s1);
        StaysReady(p, aims, i, h + 1, s1);
        Numbers(p, aims, i, h + 1, Again(t, i, h));
        InsertsGrow(p, aims, i, h + 1, Again(t, i, h));
        MutateTwice(p, i, h, s);
        var u := Mutate(p, i, h + 1, Again(t, i, h)).0;
        NumberedTwice(p, |s.inserts|, |t.inserts|, |u.inserts|, s.ids, t.ids, u.ids);
      } else {
        MutateOnce(p, i, h, s);
      }
    }
  }

  lemma {:induction false} NumbersBelow(p: Plan, aims: seq<Fields>, i: nat, s: State)
    requires i < |p.hooks| && Ready(p, aims, i, |p.hooks[i]|, s)
    ensures var t := Mutate(p, i, |p.hooks[i]|, s).0; Numbered(p, |s.inserts|, |t.inserts|, s.ids, t.ids)
    decreases |p.hooks| - i, 0, 0
  {
    ReadyHere(p, aims, i, s);
    MutateHere(p, i, s);
    if Check(p.schema, aims[i]).None? {
      var s1 := Prepare(s, i);
      if i + 1 < |p.hooks| {
        Numbers(p, aims, i + 1, 0, s1);
        NumberedAround(p, |s.inserts|, |Mutate(p, i + 1, 0, s1).0.inserts|, s.ids, i, Mutate(p, i + 1, 0, s1).0.ids);
      } else {
        NumberedLast(p, s, s1);
      }
    }
  }

  /** An ID that was taken away before the inserts is one that was there. */
  lemma NumberedAround(p: Plan, k: nat, n: nat, before: map<nat, int>, i: nat, after: map<nat, int>)
    requires Numbered(p, k, n, before - {i}, after)
    ensures Numbered(p, k, n, before, after)
  {
  }

  lemma NumberedLast(p: Plan, s: State, s1: State)
    requires s1.inserts == s.inserts && s1.ids.Keys <= s.ids.Keys
    ensures var t := BatchInsert(p, s1).0; Numbered(p, |s.inserts|, |t.inserts|, s.ids, t.ids)
  {
  }

  lemma BuiltTwice(p: Plan, aims: seq<Fields>, i: nat, h: nat, s: State, t: State, u: State)
    requires Shaped(p, s) && |aims| == |p.hooks| && i < |p.hooks| && h <= |p.hooks[i]| && Shaped(p, t) && Shaped(p, u)
    requires Wrote(p, aims, i, h, s, t) && Wrote(p, aims, i, h, Again(t, i, h), u)
    requires Built(p, aims, i, h, s, t) && Built(p, aims, i, h, Again(t, i, h), u)
    ensures Built(p, aims, i, h, s, u)
  {
    assert LastStored(p, s, u) <==> LastStored(p, Again(t, i, h), u);
  }

  lemma BuiltOutside(p: Plan, aims: seq<Fields>, i: nat, h: nat, s: State, t: State)
    requires Shaped(p, s) && |aims| == |p.hooks| && i < |p.hooks| && Shaped(p, t) && h < |p.hooks[i]| && p.hooks[i][h].Forward?
    requires Built(p, aims, i, h + 1, Entering(p, i, h, s), t)
    ensures Built(p, aims, i, h, s, Log(t, Post(i, h)))
  {
    assert LastStored(p, s, Log(t, Post(i, h))) <==> LastStored(p, Entering(p, i, h, s), t);
    assert Stop(p, aims, i, h) == Stop(p, aims, i, h + 1);
  }

  lemma {:induction false} Builds(p: Plan, aims: seq<Fields>, i: nat, h: nat, s: State)
    requires Ready(p, aims, i, h, s)
    ensures Built(p, aims, i, h, s, Mutate(p, i, h, s).0)
    decreases |p.hooks| - i, |p.hooks[i]| - h, 1
  {
    if h == |p.hooks[i]| {
      BuildsBelow(p, aims, i, s);
    } else if p.hooks[i][h].Forward? {
      var s1 := Entering(p, i, h, s);
      ReadyInside(p, aims, i, h, s);
      Builds(p, aims, i, h + 1, s1);
      var (t, r) := Mutate(p, i, h + 1, s1);
      if Retries(p, i, h) && r.Failure? {
        StaysReady(p, aims, i, h + 1, s1);
        Builds(p, aims, i, h + 1, Again(t, i, h));
        Writes(p, aims, i, h + 1, s1);
        Writes(p, aims, i, h + 1, Again(t, i, h));
        MutateTwice(p, i, h, s);
        var u := Mutate(p, i, h + 1, Again(t, i, h)).0;
        BuiltTwice(p, aims, i, h + 1, s1, t, u);
        BuiltOutside(p, aims, i, h, s, u);
      } else {
        MutateOnce(p, i, h, s);
        BuiltOutside(p, aims, i, h, s, t);
      }
    }
  }

  /** A builder itself: its node, then the nodes after it, then its own ID. */
  lemma {:induction false} BuildsBelow(p: Plan, aims: seq<Fields>, i: nat, s: State)
    requires i < |p.hooks| && Ready(p, aims, i, |p.hooks[i]|, s)
    ensures Built(p, aims, i, |p.hooks[i]|, s, Mutate(p, i, |p.hooks[i]|, s).0)
    decreases |p.hooks| - i, 0, 0
  {
    ReadyHere(p, aims, i, s);
    MutateHere(p, i, s);
    if Check(p.schema, aims[i]).None? {
      if i + 1 < |p.hooks| {
        var s1 := Prepare(s, i);
        Builds(p, aims, i + 1, 0, s1);
        Fares(p, aims, i + 1, 0, s1);
        EarlierUntouched(p, i + 1, 0, s1);
        KeptAt(s1, Mutate(p, i + 1, 0, s1).0, i + 1, i);
        BuiltAround(p, aims, i, s, Mutate(p, i + 1, 0, s1).0, Mutate(p, i + 1, 0, s1).1);
      } else {
        BuiltLast(p, aims, i, s);
      }
    }
  }

  lemma BuiltAround(p: Plan, aims: seq<Fields>, i: nat, s: State, t: State, r: Outcome)
    requires Shaped(p, s) && Shaped(p, t) && |aims| == |p.hooks| && i + 1 < |p.hooks|
    requires Check(p.schema, aims[i]).None?
    requires Built(p, aims, i + 1, 0, Prepare(s, i), t) && Fared(p, aims, i + 1, 0, Prepare(s, i), t, r)
    requires t.nodes[i] == Some(Node(aims[i], 0))
    ensures Built(p, aims, i, |p.hooks[i]|, s, Around(t, i, r))
  {
    var u := Around(t, i, r);
    assert LastStored(p, s, u) <==> LastStored(p, Prepare(s, i), t);
    assert Stop(p, aims, i, |p.hooks[i]|) == Stop(p, aims, i + 1, 0);
    assert u.nodes[i] == Some(NodeOf(p, aims, i, u.ids, LastStored(p, s, u)));
  }

  lemma BuiltLast(p: Plan, aims: seq<Fields>, i: nat, s: State)
    requires Shaped(p, s) && |aims| == |p.hooks| == i + 1 && Check(p.schema, aims[i]).None? && s.mutations[i].fields == aims[i]
    ensures Built(p, aims, i, |p.hooks[i]|, s, Around(BatchInsert(p, Prepare(s, i)).0, i, BatchInsert(p, Prepare(s, i)).1))
  {
    var (t, r) := BatchInsert(p, Prepare(s, i));
    assert LastStored(p, s, Around(t, i, r)) <==> r.Success?;
  }

  // ------------------------------------------------------------- one insert or several

  /** No retry hook from hook `h` of builder `i` on is told of a failure when the only insert reports `stored`. */
  predicate Calm(p: Plan, aims: seq<Fields>, i: nat, h: nat, stored: bool)
    requires |aims| == |p.hooks| && i < |p.hooks| && h <= |p.hooks[i]|
    decreases |p.hooks| - i, |p.hooks[i]| - h
  {
    if h == |p.hooks[i]| then i + 1 < |p.hooks| ==> Calm(p, aims, i + 1, 0, stored)
    else (Retries(p, i, h) ==> Says(Verdict(p, aims, i, h + 1), stored)) && Calm(p, aims, i, h + 1, stored)
  }

  lemma {:induction false} InsertsOnce(p: Plan, aims: seq<Fields>, i: nat, h: nat, s: State)
    requires Ready(p, aims, i, h, s) && Stop(p, aims, i, h) == |p.hooks|
    ensures |Mutate(p, i, h, s).0.inserts| == |s.inserts| + 1 <==> Calm(p, aims, i, h, p.batch(|s.inserts|).Stored?)
    decreases |p.hooks| - i, |p.hooks[i]| - h, 1
  {
    if h == |p.hooks[i]| {
      InsertsOnceBelow(p, aims, i, s);
    } else {
      var s1 := Entering(p, i, h, s);
      ReadyInside(p, aims, i, h, s);
      InsertsOnce(p, aims, i, h + 1, s1);
      Writes(p, aims, i, h + 1, s1);
      Fares(p, aims, i, h + 1, s1);
      var (t, r) := Mutate(p, i, h + 1, s1);
      if Retries(p, i, h) && r.Failure? {
        StaysReady(p, aims, i, h + 1, s1);
        Writes(p, aims, i, h + 1, Again(t, i, h));
        MutateTwice(p, i, h, s);
      } else {
        MutateOnce(p, i, h, s);
      }
    }
  }

  lemma {:induction false} InsertsOnceBelow(p: Plan, aims: seq<Fields>, i: nat, s: State)
    requires i < |p.hooks| && Ready(p, aims, i, |p.hooks[i]|, s) && Stop(p, aims, i, |p.hooks[i]|) == |p.hooks|
    ensures |Mutate(p, i, |p.hooks[i]|, s).0.inserts| == |s.inserts| + 1
       <==> Calm(p, aims, i, |p.hooks[i]|, p.batch(|s.inserts|).Stored?)
    decreases |p.hooks| - i, 0, 0
  {
    ReadyHere(p, aims, i, s);
    if i + 1 < |p.hooks| {
      InsertsOnce(p, aims, i + 1, 0, Prepare(s, i));
    }
  }

  // ---------------------------------------------------------------------- the trace

  /** Reading a trace, what is entered and not left yet; `None` when something is left that is not the innermost. */
  function Open(es: seq<Event>, inside: seq<(nat, nat)>): Option<seq<(nat, nat)>>
    decreases es
  {
    if es == [] then Some(inside)
    else
      match es[0]
      case Insert => Open(es[1..], inside)
      case Pre(i, h) => Open(es[1..], inside + [(i, h)])
      case Post(i, h) =>
        if inside != [] && inside[|inside| - 1] == (i, h) then Open(es[1..], inside[..|inside| - 1]) else None
  }

  /** `es` leaves everything that it enters, innermost first, and nothing else. */
  ghost predicate Balanced(es: seq<Event>) {
    forall inside :: Open(es, inside) == Some(inside)
  }

  lemma {:induction false} OpenAppend(es: seq<Event>, fs: seq<Event>, inside: seq<(nat, nat)>)
    requires Open(es, inside).Some?
    ensures Open(es + fs, inside) == Open(fs, Open(es, inside).value)
    decreases es
  {
    if es == [] {
      assert es + fs == fs;
    } else {
      assert (es + fs)[1..] == es[1..] + fs;
      match es[0]
      case Insert => OpenAppend(es[1..], fs, inside);
      case Pre(i, h) => OpenAppend(es[1..], fs, inside + [(i, h)]);
      case Post(i, h) => OpenAppend(es[1..], fs, inside[..|inside| - 1]);
    }
  }

  lemma BalancedAppend(es: seq<Event>, fs: seq<Event>)
    requires Balanced(es) && Balanced(fs)
    ensures Balanced(es + fs)
  {
    forall inside ensures Open(es + fs, inside) == Some(inside) {
      OpenAppend(es, fs, inside);
    }
  }

  lemma BalancedInHook(es: seq<Event>, i: nat, h: nat)
    requires Balanced(es)
    ensures Balanced([Pre(i, h)] + es + [Post(i, h)])
  {
    forall inside ensures Open([Pre(i, h)] + es + [Post(i, h)], inside) == Some(inside) {
      var all, here := [Pre(i, h)] + es + [Post(i, h)], inside + [(i, h)];
      assert all[1..] == es + [Post(i, h)];
      OpenAppend(es, [Post(i, h)], here);
      assert here[..|here| - 1] == inside;
      assert [Post(i, h)][1..] == [];
    }
  }

  lemma BalancedInsert()
    ensures Balanced([Insert]) && Balanced([])
  {
    assert [Insert][1..] == [];
  }

  /** What a pass added to the trace. */
  function Added(s: State, t: State): seq<Event>
    requires |s.trace| <= |t.trace|
  {
    t.trace[|s.trace|..]
  }

  ghost predicate Unwound(s: State, t: State) {
    s.trace <= t.trace && Balanced(Added(s, t))
  }

  lemma UnwoundHook(s: State, s1: State, t: State, i: nat, h: nat)
    requires s1.trace == s.trace + [Pre(i, h)] && Unwound(s1, t)
    ensures Unwound(s, Log(t, Post(i, h)))
  {
    BalancedInHook(Added(s1, t), i, h);
    assert Added(s, Log(t, Post(i, h))) == [Pre(i, h)] + Added(s1, t) + [Post(i, h)];
  }

  lemma UnwoundTwice(s: State, t: State, u: State)
    requires Unwound(s, t) && Unwound(t, u)
    ensures Unwound(s, u)
  {
    BalancedAppend(Added(s, t), Added(t, u));
    assert Added(s, u) == Added(s, t) + Added(t, u);
  }

  lemma UnwoundAtEnd(s: State, t: State)
    requires t.trace == s.trace || t.trace == s.trace + [Insert]
    ensures Unwound(s, t)
  {
    BalancedInsert();
    assert Added(s, t) == [] || Added(s, t) == [Insert];
  }

  /** In every run, hooks report on the way out in the reverse of the order in which they were entered, retries included. */
  lemma {:induction false} TraceBalanced(p: Plan, i: nat, h: nat, s: State)
    requires Shaped(p, s) && i < |p.hooks| && h <= |p.hooks[i]|
    ensures Unwound(s, Mutate(p, i, h, s).0)
    decreases |p.hooks| - i, |p.hooks[i]| - h
  {
    if h == |p.hooks[i]| {
      if Check(p.schema, s.mutations[i].fields).None? && i + 1 < |p.hooks| {
        TraceBalanced(p, i + 1, 0, Prepare(s, i));
        assert Unwound(s, Mutate(p, i + 1, 0, Prepare(s, i)).0);
      } else {
        UnwoundAtEnd(s, Mutate(p, i, h, s).0);
      }
    } else if p.hooks[i][h].Forward? {
      var s1 := Entering(p, i, h, s);
      TraceBalanced(p, i, h + 1, s1);
      var (t, r) := Mutate(p, i, h + 1, s1);
      UnwoundHook(s, s1, t, i, h);
      if Retries(p, i, h) && r.Failure? {
        TraceBalanced(p, i, h + 1, Again(t, i, h));
        MutateTwice(p, i, h, s);
        UnwoundHook(Log(t, Post(i, h)), Again(t, i, h), Mutate(p, i, h + 1, Again(t, i, h)).0, i, h);
        UnwoundTwice(s, Log(t, Post(i, h)), Mutate(p, i, h, s).0);
      } else {
        MutateOnce(p, i, h, s);
      }
    } else {
      UnwoundAtEnd(s, s);
    }
  }
}
