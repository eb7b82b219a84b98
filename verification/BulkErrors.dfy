/** Which error a bulk save reports, for every plan. */
module BulkErrors {
  import opened Basics
  import opened BulkCreate
  import opened BulkRuns
  import opened BulkSaves

  // ------------------------------------------------------------------ one builder's check

  /** The fields in the order in which `check` looks at them. */
  const CHECKED: seq<Field> :=
    [CreatedAt, UpdatedAt, Name, Platform, Type, Credentials, Extra, Concurrency, Priority, RateMultiplier, Status,
     AutoPauseOnExpired, Schedulable, SessionWindowStatus, QuotaDimension]

  /** Six of them have a validator, and all but the session window status must be set. */
  predicate Offends(s: Schema, m: Fields, f: Field) {
    if f in m then f in {Name, Platform, Type, Status, SessionWindowStatus, QuotaDimension} && !s.accepts(f, m[f])
    else f != SessionWindowStatus
  }

  /** The field that `check` complains about: the first one that offends. */
  predicate FirstOffence(s: Schema, m: Fields, f: Field) {
    exists k | 0 <= k < |CHECKED| :: CHECKED[k] == f && Offends(s, m, f) && forall j | 0 <= j < k :: !Offends(s, m, CHECKED[j])
  }

  lemma RuleOffends(s: Schema, m: Fields, k: nat)
    requires k < |RULES|
    ensures k < |CHECKED| && RULES[k].field == CHECKED[k] && (Breaks(s, RULES[k], m) <==> Offends(s, m, CHECKED[k]))
  {
  }

  lemma {:induction false} FirstBrokenAt(s: Schema, rules: seq<Rule>, m: Fields) returns (k: nat)
    ensures FirstBroken(s, rules, m).Some? ==>
              k < |rules| && FirstBroken(s, rules, m) == Some(rules[k].field) && Breaks(s, rules[k], m)
              && forall j | 0 <= j < k :: !Breaks(s, rules[j], m)
    ensures FirstBroken(s, rules, m).None? ==> forall j | 0 <= j < |rules| :: !Breaks(s, rules[j], m)
  {
    k := 0;
    if rules != [] && !Breaks(s, rules[0], m) {
      var i := FirstBrokenAt(s, rules[1..], m);
      k := i + 1;
    }
  }

  lemma CheckedOnce(j: nat, k: nat)
    requires j < k < |CHECKED|
    ensures CHECKED[j] != CHECKED[k]
  {
  }

  /** Where `check` stops. */
  lemma CheckStops(s: Schema, m: Fields) returns (k: nat)
    ensures Check(s, m).Some? ==> k < |CHECKED| && Check(s, m) == Some(CHECKED[k]) && Offends(s, m, CHECKED[k])
    ensures Check(s, m).Some? ==> forall j | 0 <= j < k :: !Offends(s, m, CHECKED[j])
    ensures Check(s, m).None? ==> forall j | 0 <= j < |CHECKED| :: !Offends(s, m, CHECKED[j])
  {
    k := FirstBrokenAt(s, RULES, m);
    if Check(s, m).Some? {
      RuleOffends(s, m, k);
    }
    forall j | 0 <= j < |CHECKED| && !Breaks(s, RULES[j], m) ensures !Offends(s, m, CHECKED[j]) {
      RuleOffends(s, m, j);
    }
  }

  /** `check` passes exactly when no field offends, and otherwise names the first that does. */
  lemma CheckMeaning(s: Schema, m: Fields, f: Field)
    ensures Check(s, m).None? <==> forall k | 0 <= k < |CHECKED| :: !Offends(s, m, CHECKED[k])
    ensures Check(s, m) == Some(f) <==> FirstOffence(s, m, f)
  {
    var k := CheckStops(s, m);
    if i :| 0 <= i < |CHECKED| && CHECKED[i] == f && Offends(s, m, f) && forall j | 0 <= j < i :: !Offends(s, m, CHECKED[j]) {
      assert i == k;
    }
  }

  /** After a hook has written, each field it edits is set or cleared as it says, and every other field is as it was. */
  lemma WriteMeaning(m: Fields, edits: Edits, f: Field)
    ensures f in Write(m, edits) <==> if f in edits then edits[f].Some? else f in m
    ensures f in Write(m, edits) ==> Write(m, edits)[f] == if f in edits then edits[f].value else m[f]
  {
  }

  // ------------------------------------------------------------------------- the defaults

  /** `defaults` does not give up at the field: it is set, or has a default, or one that cannot be uninitialized. */
  predicate GoesOn(s: Schema, m: Fields, f: Field) {
    f in m || s.defaults(f).Some? || f !in {CreatedAt, UpdatedAt, Credentials, Extra}
  }

  lemma {:induction false} FilledUpTo(s: Schema, fields: seq<Field>, m: Fields, k: nat)
    requires NoDuplicates(fields) && k < |fields|
    ensures fields[k] in FillDefaults(s, fields, m)
       <==> fields[k] in m || (s.defaults(fields[k]).Some? && forall j | 0 <= j < k :: GoesOn(s, m, fields[j]))
  {
    var f, rest := fields[0], fields[1..];
    var n := if f in m || s.defaults(f).None? then m else m[f := s.defaults(f).value];
    FilledFields(s, rest, n);
    if k > 0 {
      FilledUpTo(s, rest, n, k - 1);
      AllGoOn(s, fields, m, n, k);
    }
  }

  /** Filling the first field decides nothing about the others. */
  lemma AllGoOn(s: Schema, fields: seq<Field>, m: Fields, n: Fields, k: nat)
    requires NoDuplicates(fields) && 0 < k <= |fields|
    requires forall g | g != fields[0] :: g in n <==> g in m
    ensures (forall j | 0 <= j < k :: GoesOn(s, m, fields[j]))
       <==> GoesOn(s, m, fields[0]) && forall j | 0 <= j < k - 1 :: GoesOn(s, n, fields[1..][j])
  {
    assert forall j | 1 <= j < k :: fields[j] == fields[1..][j - 1] && fields[j] != fields[0];
    assert forall j | 0 <= j < k - 1 :: fields[1..][j] == fields[j + 1];
  }

  lemma DefaultedOnce()
    ensures NoDuplicates(DEFAULTED)
  {
  }

  /** `defaults` fills, in its order, what is unset, up to the first default that is not initialized; it changes nothing else. */
  lemma DefaultsMeaning(s: Schema, m: Fields, k: nat)
    requires k < |DEFAULTED|
    ensures var t, f := FillDefaults(s, DEFAULTED, m), DEFAULTED[k];
            && (f in t <==> f in m || (s.defaults(f).Some? && forall j | 0 <= j < k :: GoesOn(s, m, DEFAULTED[j])))
            && (forall g | g in m :: g in t && t[g] == m[g])
            && (forall g | g in t && g !in m :: s.defaults(g).Some? && t[g] == s.defaults(g).value)
            && (forall g | g !in DEFAULTED :: g in t <==> g in m)
  {
    DefaultedOnce();
    FilledUpTo(s, DEFAULTED, m, k);
    FilledFields(s, DEFAULTED, m);
  }

  /** The values that have a validator. */
  predicate AllAccepted(s: Schema, t: Fields) {
    forall f | f in {Name, Platform, Type, Status, SessionWindowStatus, QuotaDimension} && f in t :: s.accepts(f, t[f])
  }

  lemma CheckedAt(f: Field) returns (k: nat)
    requires f in {Name, Platform, Type, Status, SessionWindowStatus, QuotaDimension}
    ensures k < |RULES| && RULES[k].field == f && RULES[k].validated
  {
    k := if f == Name then 2 else if f == Platform then 3 else if f == Type then 4 else if f == Status then 10
         else if f == SessionWindowStatus then 13 else 14;
  }

  lemma AcceptedIff(s: Schema, t: Fields)
    ensures AllAccepted(s, t) <==> forall k | 0 <= k < |RULES| :: !Refused(s, RULES[k], t)
  {
    if f :| f in {Name, Platform, Type, Status, SessionWindowStatus, QuotaDimension} && f in t && !s.accepts(f, t[f]) {
      var k := CheckedAt(f);
      assert Refused(s, RULES[k], t);
    }
    forall k | 0 <= k < |RULES| && Refused(s, RULES[k], t) ensures !AllAccepted(s, t) {
      RuleOffends(s, t, k);
    }
  }

  /**
   * After `defaults`, whose error is ignored, a builder passes exactly when name, platform and type are given, every
   * default that is needed was initialized, and none of the six values that have a validator is refused.
   */
  lemma CheckAfterDefaults(s: Schema, m: Fields)
    ensures var t := FillDefaults(s, DEFAULTED, m);
            Check(s, t).None? <==>
              && Name in m && Platform in m && Type in m
              && (forall f | f in DEFAULTED :: f in m || s.defaults(f).Some?)
              && AllAccepted(s, t)
  {
    CheckAfterRules(s, m);
    AcceptedIff(s, FillDefaults(s, DEFAULTED, m));
  }

  // ----------------------------------------------------------- the error, from outside in

  /** What a hook that calls the rest of the chain makes of its report. */
  function Passing(after: After, e: Option<BulkError>, i: nat, h: nat): Option<BulkError> {
    if after.Recover? then None else if after.Fail? && e.None? then Some(FailedAfter(i, h)) else e
  }

  /** What the chain from hook `h` of builder `i` on reports if its last insert, should there be one, is stored or not. */
  function ErrorOf(p: Plan, aims: seq<Fields>, i: nat, h: nat, stored: bool): Option<BulkError>
    requires |aims| == |p.hooks| && i < |p.hooks| && h <= |p.hooks[i]|
    decreases |p.hooks| - i, |p.hooks[i]| - h
  {
    if h == |p.hooks[i]| then
      match Check(p.schema, aims[i])
      case Some(f) => Some(Invalid(i, f))
      case None => if i + 1 < |p.hooks| then ErrorOf(p, aims, i + 1, 0, stored) else if stored then None else Some(InsertFailed)
    else
      match p.hooks[i][h]
      case Veto => Some(Vetoed(i, h))
      case ShortCircuit => None
      case Forward(_, after) => Passing(after, ErrorOf(p, aims, i, h + 1, stored), i, h)
  }

  function Reported(e: Option<BulkError>): Outcome {
    match e
    case None => Success
    case Some(error) => Failure(error)
  }

  lemma MutateReports(p: Plan, i: nat, h: nat, s: State, e: Option<BulkError>)
    requires Shaped(p, s) && i < |p.hooks| && h < |p.hooks[i]| && p.hooks[i][h].Forward?
    requires Mutate(p, i, h + 1, Entering(p, i, h, s)).1 == Reported(e) && !(Retries(p, i, h) && e.Some?)
    ensures Mutate(p, i, h, s) == (Log(Mutate(p, i, h + 1, Entering(p, i, h, s)).0, Post(i, h)), Reported(Passing(p.hooks[i][h].after, e, i, h)))
  {
  }

  /** The outcome of the pass is the one foretold. */
  ghost predicate Foretold(p: Plan, aims: seq<Fields>, i: nat, h: nat, s: State)
    requires Shaped(p, s) && |aims| == |p.hooks| && i < |p.hooks| && h <= |p.hooks[i]|
  {
    Mutate(p, i, h, s).1 == Reported(ErrorOf(p, aims, i, h, LastStored(p, s, Mutate(p, i, h, s).0)))
  }

  /** A second pass that inserts whenever the first did ends on its own last insert. */
  lemma LastOfTwo(p: Plan, s: State, t: State, u: State)
    requires |s.inserts| <= |t.inserts| <= |u.inserts| && (|s.inserts| < |t.inserts| ==> |t.inserts| < |u.inserts|)
    ensures LastStored(p, s, u) <==> LastStored(p, t, u)
  {
  }

  lemma {:induction false} Errs(p: Plan, aims: seq<Fields>, i: nat, h: nat, s: State)
    requires Ready(p, aims, i, h, s)
    ensures Foretold(p, aims, i, h, s)
    decreases |p.hooks| - i, |p.hooks[i]| - h, 1
  {
    if h == |p.hooks[i]| {
      ErrsBelow(p, aims, i, s);
    } else if p.hooks[i][h].Forward? {
      ErrsThrough(p, aims, i, h, s);
    }
  }

  lemma ForetoldOnce(p: Plan, aims: seq<Fields>, i: nat, h: nat, s: State)
    requires Shaped(p, s) && |aims| == |p.hooks| && i < |p.hooks| && h < |p.hooks[i]| && p.hooks[i][h].Forward?
    requires Foretold(p, aims, i, h + 1, Entering(p, i, h, s))
    requires !(Retries(p, i, h) && Mutate(p, i, h + 1, Entering(p, i, h, s)).1.Failure?)
    ensures Foretold(p, aims, i, h, s)
  {
    var s1 := Entering(p, i, h, s);
    var t := Mutate(p, i, h + 1, s1).0;
    MutateReports(p, i, h, s, ErrorOf(p, aims, i, h + 1, LastStored(p, s1, t)));
    ErrorThrough(p, aims, i, h, LastStored(p, s1, t));
    LastOutside(p, s, s1, t, Post(i, h));
  }

  lemma ErrorThrough(p: Plan, aims: seq<Fields>, i: nat, h: nat, stored: bool)
    requires |aims| == |p.hooks| && i < |p.hooks| && h < |p.hooks[i]| && p.hooks[i][h].Forward?
    ensures ErrorOf(p, aims, i, h, stored) == Passing(p.hooks[i][h].after, ErrorOf(p, aims, i, h + 1, stored), i, h)
  {
  }

  lemma LastOutside(p: Plan, s: State, s1: State, t: State, e: Event)
    requires s1.inserts == s.inserts
    ensures LastStored(p, s, Log(t, e)) <==> LastStored(p, s1, t)
  {
  }

  lemma ForetoldTwice(p: Plan, aims: seq<Fields>, i: nat, h: nat, s: State, s2: State)
    requires Shaped(p, s) && |aims| == |p.hooks| && i < |p.hooks| && h < |p.hooks[i]| && Retries(p, i, h)
    requires Mutate(p, i, h + 1, Entering(p, i, h, s)).1.Failure?
    requires s2 == Again(Mutate(p, i, h + 1, Entering(p, i, h, s)).0, i, h) && Foretold(p, aims, i, h + 1, s2)
    requires |s.inserts| <= |s2.inserts| <= |Mutate(p, i, h + 1, s2).0.inserts|
    requires |s.inserts| < |s2.inserts| ==> |s2.inserts| < |Mutate(p, i, h + 1, s2).0.inserts|
    ensures Foretold(p, aims, i, h, s)
  {
    MutateTwice(p, i, h, s);
    LastOfTwo(p, s, s2, Mutate(p, i, h + 1, s2).0);
  }

  lemma {:induction false} ErrsThrough(p: Plan, aims: seq<Fields>, i: nat, h: nat, s: State)
    requires Ready(p, aims, i, h, s) && h < |p.hooks[i]| && p.hooks[i][h].Forward?
    ensures Foretold(p, aims, i, h, s)
    decreases |p.hooks| - i, |p.hooks[i]| - h, 0
  {
    var s1 := Entering(p, i, h, s);
    ReadyInside(p, aims, i, h, s);
    Errs(p, aims, i, h + 1, s1);
    if Retries(p, i, h) && Mutate(p, i, h + 1, s1).1.Failure? {
      var s2 := Again(Mutate(p, i, h + 1, s1).0, i, h);
      InsertsGrow(p, aims, i, h + 1, s1);
      StaysReady(p, aims, i, h + 1, s1);
      Errs(p, aims, i, h + 1, s2);
      InsertsGrow(p, aims, i, h + 1, s2);
      ForetoldTwice(p, aims, i, h, s, s2);
    } else {
      ForetoldOnce(p, aims, i, h, s);
    }
  }

  lemma {:induction false} ErrsBelow(p: Plan, aims: seq<Fields>, i: nat, s: State)
    requires i < |p.hooks| && Ready(p, aims, i, |p.hooks[i]|, s)
    ensures Foretold(p, aims, i, |p.hooks[i]|, s)
    decreases |p.hooks| - i, 0, 0
  {
    ReadyHere(p, aims, i, s);
    if Check(p.schema, aims[i]).None? && i + 1 < |p.hooks| {
      Errs(p, aims, i + 1, 0, Prepare(s, i));
    }
  }

  lemma {:induction false} NoErrorIff(p: Plan, aims: seq<Fields>, i: nat, h: nat, stored: bool)
    requires |aims| == |p.hooks| && i < |p.hooks| && h <= |p.hooks[i]|
    ensures ErrorOf(p, aims, i, h, stored).None? <==> Says(Verdict(p, aims, i, h), stored)
    decreases |p.hooks| - i, |p.hooks[i]| - h
  {
    if h < |p.hooks[i]| {
      NoErrorIff(p, aims, i, h + 1, stored);
    } else if i + 1 < |p.hooks| {
      NoErrorIff(p, aims, i + 1, 0, stored);
    }
  }

  // ----------------------------------------------------------------- where errors come from

  /** All hooks of builder `x` from `from` up to `g` pass the mutation on. */
  predicate Forwards(p: Plan, x: nat, from: nat, g: nat)
    requires x < |p.hooks| && g <= |p.hooks[x]|
  {
    forall k | from <= k < g :: p.hooks[x][k].Forward?
  }

  /** From hook `h` of builder `i` on, the chain gets to builder `x`. */
  predicate Gets(p: Plan, aims: seq<Fields>, i: nat, h: nat, x: nat)
    requires |aims| == |p.hooks| && i < |p.hooks| && h <= |p.hooks[i]|
  {
    i <= x < |p.hooks| && (x > i ==> Through(p, aims, i, h)) && forall y | i < y < x :: Through(p, aims, y, 0)
  }

  /** And to its hook `g`. */
  predicate GetsTo(p: Plan, aims: seq<Fields>, i: nat, h: nat, x: nat, g: nat)
    requires |aims| == |p.hooks| && i < |p.hooks| && h <= |p.hooks[i]|
  {
    && Gets(p, aims, i, h, x) && g <= |p.hooks[x]| && (x == i ==> h <= g)
    && Forwards(p, x, if x == i then h else 0, g)
  }

  /** And passes it. */
  predicate Passes(p: Plan, aims: seq<Fields>, i: nat, h: nat, x: nat, g: nat)
    requires |aims| == |p.hooks| && i < |p.hooks| && h <= |p.hooks[i]|
  {
    GetsTo(p, aims, i, h, x, g) && g < |p.hooks[x]| && p.hooks[x][g].Forward?
  }

  predicate RecoversAt(p: Plan, aims: seq<Fields>, i: nat, h: nat, y: nat, k: nat)
    requires |aims| == |p.hooks| && i < |p.hooks| && h <= |p.hooks[i]|
  {
    Passes(p, aims, i, h, y, k) && p.hooks[y][k].after.Recover?
  }

  /** A hook that is passed on the way to hook `g` of builder `x` recovers. */
  ghost predicate Recovered(p: Plan, aims: seq<Fields>, i: nat, h: nat, x: nat, g: nat)
    requires |aims| == |p.hooks| && i < |p.hooks| && h <= |p.hooks[i]|
  {
    exists y: nat, k: nat :: (y < x || (y == x && k < g)) && RecoversAt(p, aims, i, h, y, k)
  }

  lemma GetsStep(p: Plan, aims: seq<Fields>, i: nat, h: nat, x: nat, g: nat)
    requires |aims| == |p.hooks| && i < |p.hooks| && h < |p.hooks[i]| && p.hooks[i][h].Forward?
    ensures GetsTo(p, aims, i, h, x, g) <==> (x == i && g == h) || GetsTo(p, aims, i, h + 1, x, g)
    ensures Passes(p, aims, i, h, x, g) <==> (x == i && g == h) || Passes(p, aims, i, h + 1, x, g)
  {
  }

  lemma GetsNext(p: Plan, aims: seq<Fields>, i: nat, x: nat, g: nat)
    requires |aims| == |p.hooks| && i < |p.hooks|
    ensures GetsTo(p, aims, i, |p.hooks[i]|, x, g)
       <==> || (x == i && g == |p.hooks[i]|)
            || (Check(p.schema, aims[i]).None? && i + 1 < |p.hooks| && GetsTo(p, aims, i + 1, 0, x, g))
    ensures Passes(p, aims, i, |p.hooks[i]|, x, g)
       <==> Check(p.schema, aims[i]).None? && i + 1 < |p.hooks| && Passes(p, aims, i + 1, 0, x, g)
  {
  }

  lemma RecoveredStep(p: Plan, aims: seq<Fields>, i: nat, h: nat, x: nat, g: nat)
    requires |aims| == |p.hooks| && i < |p.hooks| && h < |p.hooks[i]| && p.hooks[i][h].Forward? && GetsTo(p, aims, i, h + 1, x, g)
    ensures Recovered(p, aims, i, h, x, g) <==> p.hooks[i][h].after.Recover? || Recovered(p, aims, i, h + 1, x, g)
  {
    if Recovered(p, aims, i, h, x, g) {
      var y: nat, k: nat :| (y < x || (y == x && k < g)) && RecoversAt(p, aims, i, h, y, k);
      GetsStep(p, aims, i, h, y, k);
      assert (y == i && k == h) || RecoversAt(p, aims, i, h + 1, y, k);
    }
    if Recovered(p, aims, i, h + 1, x, g) {
      var y: nat, k: nat :| (y < x || (y == x && k < g)) && RecoversAt(p, aims, i, h + 1, y, k);
      GetsStep(p, aims, i, h, y, k);
      assert RecoversAt(p, aims, i, h, y, k);
    }
    if p.hooks[i][h].after.Recover? {
      GetsStep(p, aims, i, h, i, h);
      assert RecoversAt(p, aims, i, h, i, h);
    }
  }

  lemma RecoveredNext(p: Plan, aims: seq<Fields>, i: nat, x: nat, g: nat)
    requires |aims| == |p.hooks| && i + 1 < |p.hooks| && Check(p.schema, aims[i]).None?
    ensures Recovered(p, aims, i, |p.hooks[i]|, x, g) <==> Recovered(p, aims, i + 1, 0, x, g)
  {
    var h := |p.hooks[i]|;
    if Recovered(p, aims, i, h, x, g) {
      var y: nat, k: nat :| (y < x || (y == x && k < g)) && RecoversAt(p, aims, i, h, y, k);
      GetsNext(p, aims, i, y, k);
      assert RecoversAt(p, aims, i + 1, 0, y, k);
    }
    if Recovered(p, aims, i + 1, 0, x, g) {
      var y: nat, k: nat :| (y < x || (y == x && k < g)) && RecoversAt(p, aims, i + 1, 0, y, k);
      GetsNext(p, aims, i, y, k);
      assert RecoversAt(p, aims, i, h, y, k);
    }
  }

  /** The error that arises at hook `g` of builder `x`, or in the builder itself, behind its last hook. */
  function Arising(p: Plan, aims: seq<Fields>, x: nat, g: nat, stored: bool): Option<BulkError>
    requires |aims| == |p.hooks| && x < |p.hooks| && g <= |p.hooks[x]|
  {
    if g == |p.hooks[x]| then
      match Check(p.schema, aims[x])
      case Some(f) => Some(Invalid(x, f))
      case None => if x + 1 == |p.hooks| && !stored then Some(InsertFailed) else None
    else
      match p.hooks[x][g]
      case Veto => Some(Vetoed(x, g))
      case ShortCircuit => None
      case Forward(_, after) => if after.Fail? && Says(Verdict(p, aims, x, g + 1), stored) then Some(FailedAfter(x, g)) else None
  }

  /** Where an error arises. */
  predicate At(p: Plan, e: BulkError, x: nat, g: nat)
    requires x < |p.hooks|
  {
    match e
    case Vetoed(y, k) => y == x && k == g && g < |p.hooks[x]|
    case FailedAfter(y, k) => y == x && k == g && g < |p.hooks[x]|
    case Invalid(y, _) => y == x && g == |p.hooks[x]|
    case InsertFailed => x + 1 == |p.hooks| && g == |p.hooks[x]|
  }

  lemma {:induction false} ArisesInside(p: Plan, aims: seq<Fields>, i: nat, h: nat, x: nat, g: nat, stored: bool)
    requires |aims| == |p.hooks| && i < |p.hooks| && h <= |p.hooks[i]| && x < |p.hooks|
    requires ErrorOf(p, aims, i, h, stored).Some? && At(p, ErrorOf(p, aims, i, h, stored).value, x, g)
    ensures x > i || (x == i && g >= h)
    decreases |p.hooks| - i, |p.hooks[i]| - h
  {
    if h < |p.hooks[i]| {
      if p.hooks[i][h].Forward? && ErrorOf(p, aims, i, h + 1, stored) == ErrorOf(p, aims, i, h, stored) {
        ArisesInside(p, aims, i, h + 1, x, g, stored);
      }
    } else if Check(p.schema, aims[i]).None? && i + 1 < |p.hooks| {
      ArisesInside(p, aims, i + 1, 0, x, g, stored);
    }
  }

  /** An error is reported exactly when the chain gets to where it arises and no hook outside recovers. */
  lemma {:induction false} SurfacesIff(p: Plan, aims: seq<Fields>, i: nat, h: nat, x: nat, g: nat, stored: bool, e: BulkError)
    requires |aims| == |p.hooks| && i < |p.hooks| && h <= |p.hooks[i]| && x < |p.hooks| && At(p, e, x, g)
    ensures ErrorOf(p, aims, i, h, stored) == Some(e)
       <==> && GetsTo(p, aims, i, h, x, g) && Arising(p, aims, x, g, stored) == Some(e)
            && !Recovered(p, aims, i, h, x, g)
    decreases |p.hooks| - i, |p.hooks[i]| - h
  {
    if h < |p.hooks[i]| {
      SurfacesThroughHook(p, aims, i, h, x, g, stored, e);
    } else {
      SurfacesThroughBuilder(p, aims, i, x, g, stored, e);
    }
  }

  lemma {:induction false} SurfacesThroughHook(p: Plan, aims: seq<Fields>, i: nat, h: nat, x: nat, g: nat, stored: bool, e: BulkError)
    requires |aims| == |p.hooks| && i < |p.hooks| && h < |p.hooks[i]| && x < |p.hooks| && At(p, e, x, g)
    ensures ErrorOf(p, aims, i, h, stored) == Some(e)
       <==> && GetsTo(p, aims, i, h, x, g) && Arising(p, aims, x, g, stored) == Some(e)
            && !Recovered(p, aims, i, h, x, g)
    decreases |p.hooks| - i, |p.hooks[i]| - h, 0
  {
    if p.hooks[i][h].Forward? {
      GetsStep(p, aims, i, h, x, g);
      NoErrorIff(p, aims, i, h + 1, stored);
      if x == i && g == h {
        if ErrorOf(p, aims, i, h + 1, stored) == Some(e) {
          ArisesInside(p, aims, i, h + 1, x, g, stored);
        }
      } else {
        SurfacesIff(p, aims, i, h + 1, x, g, stored, e);
        if GetsTo(p, aims, i, h + 1, x, g) {
          RecoveredStep(p, aims, i, h, x, g);
        }
      }
    }
  }

  lemma {:induction false} SurfacesThroughBuilder(p: Plan, aims: seq<Fields>, i: nat, x: nat, g: nat, stored: bool, e: BulkError)
    requires |aims| == |p.hooks| && i < |p.hooks| && x < |p.hooks| && At(p, e, x, g)
    ensures ErrorOf(p, aims, i, |p.hooks[i]|, stored) == Some(e)
       <==> && GetsTo(p, aims, i, |p.hooks[i]|, x, g) && Arising(p, aims, x, g, stored) == Some(e)
            && !Recovered(p, aims, i, |p.hooks[i]|, x, g)
    decreases |p.hooks| - i, 0, 0
  {
    GetsNext(p, aims, i, x, g);
    if Check(p.schema, aims[i]).None? && i + 1 < |p.hooks| {
      SurfacesIff(p, aims, i + 1, 0, x, g, stored, e);
      RecoveredNext(p, aims, i, x, g);
    }
  }

  // ------------------------------------------------------------------------ the whole save

  /** Builders before `x` let their mutations through, and so do its first `g` hooks. */
  predicate Reached(p: Plan, aims: seq<Fields>, x: nat, g: nat)
    requires |aims| == |p.hooks|
  {
    && x < |p.hooks| && g <= |p.hooks[x]|
    && (forall y | 0 <= y < x :: Through(p, aims, y, 0)) && (forall k | 0 <= k < g :: p.hooks[x][k].Forward?)
  }

  /** On the way to hook `g` of builder `x` a hook recovers. */
  predicate RecoveredBefore(p: Plan, x: nat, g: nat) {
    exists y, k | 0 <= y < |p.hooks| && 0 <= k < |p.hooks[y]| ::
      (y < x || (y == x && k < g)) && p.hooks[y][k].Forward? && p.hooks[y][k].after.Recover?
  }

  /** The last insert is stored. */
  predicate EndsStored(p: Plan, t: State) {
    t.inserts != [] && p.batch(|t.inserts| - 1).Stored?
  }

  lemma {:induction false} ThroughForwards(p: Plan, aims: seq<Fields>, i: nat, h: nat)
    requires |aims| == |p.hooks| && i < |p.hooks| && h <= |p.hooks[i]| && Through(p, aims, i, h)
    ensures forall k | h <= k < |p.hooks[i]| :: p.hooks[i][k].Forward?
    decreases |p.hooks[i]| - h
  {
    if h < |p.hooks[i]| {
      ThroughForwards(p, aims, i, h + 1);
    }
  }

  lemma ReachedIff(p: Plan, aims: seq<Fields>, x: nat, g: nat)
    requires |aims| == |p.hooks| > 0
    ensures GetsTo(p, aims, 0, 0, x, g) <==> Reached(p, aims, x, g)
    ensures Reached(p, aims, x, g) ==> (Recovered(p, aims, 0, 0, x, g) <==> RecoveredBefore(p, x, g))
  {
    if Reached(p, aims, x, g) {
      forall y, k | 0 <= y < |p.hooks| && 0 <= k < |p.hooks[y]| && (y < x || (y == x && k < g))
        ensures Passes(p, aims, 0, 0, y, k)
      {
        if y < x {
          ThroughForwards(p, aims, y, 0);
        }
      }
      if RecoveredBefore(p, x, g) {
        var y, k :| 0 <= y < |p.hooks| && 0 <= k < |p.hooks[y]| && (y < x || (y == x && k < g))
                    && p.hooks[y][k].Forward? && p.hooks[y][k].after.Recover?;
        assert RecoversAt(p, aims, 0, 0, y, k);
      }
    }
  }

  /** Every plan: which error comes back. It is one that arises where the chain gets to, with no hook outside that recovers. */
  lemma SaveErrorIff(p: Plan, init: seq<Fields>, x: nat, g: nat, e: BulkError)
    requires |init| == |p.hooks| && x < |p.hooks| && At(p, e, x, g)
    ensures var (t, r) := Run(p, init);
            var aims := Aims(p, init);
            r == Failure(e)
            <==> Reached(p, aims, x, g) && Arising(p, aims, x, g, EndsStored(p, t)) == Some(e) && !RecoveredBefore(p, x, g)
  {
    var aims := Aims(p, init);
    StartsReady(p, init);
    Errs(p, aims, 0, 0, Start(init));
    var t := Run(p, init).0;
    assert LastStored(p, Start(init), t) == EndsStored(p, t);
    SurfacesIff(p, aims, 0, 0, x, g, EndsStored(p, t), e);
    ReachedIff(p, aims, x, g);
  }

  /** The insert's error comes back exactly when all builders get through, the last insert is rejected, and no hook recovers. */
  lemma SaveInsertFailedIff(p: Plan, init: seq<Fields>)
    requires |init| == |p.hooks| > 0
    ensures var (t, r) := Run(p, init);
            r == Failure(InsertFailed)
            <==> AllThrough(p, Aims(p, init)) && !EndsStored(p, t) && !RecoveredBefore(p, |p.hooks|, 0)
  {
    var aims, x := Aims(p, init), |p.hooks| - 1;
    SaveErrorIff(p, init, x, |p.hooks[x]|, InsertFailed);
    LastThrough(p, aims, x);
    assert RecoveredBefore(p, |p.hooks|, 0) <==> RecoveredBefore(p, x, |p.hooks[x]|);
  }

  lemma LastThrough(p: Plan, aims: seq<Fields>, x: nat)
    requires |aims| == |p.hooks| == x + 1
    ensures AllThrough(p, aims) <==> Reached(p, aims, x, |p.hooks[x]|) && Check(p.schema, aims[x]).None?
  {
    if Reached(p, aims, x, |p.hooks[x]|) {
      ForwardsThrough(p, aims, x, 0);
    }
    if Through(p, aims, x, 0) {
      ThroughForwards(p, aims, x, 0);
      ThroughIsChecked(p, aims, x, 0);
    }
  }

  lemma {:induction false} ForwardsThrough(p: Plan, aims: seq<Fields>, i: nat, h: nat)
    requires |aims| == |p.hooks| && i < |p.hooks| && h <= |p.hooks[i]|
    requires forall k | h <= k < |p.hooks[i]| :: p.hooks[i][k].Forward?
    ensures Through(p, aims, i, h) <==> Check(p.schema, aims[i]).None?
    decreases |p.hooks[i]| - h
  {
    if h < |p.hooks[i]| {
      ForwardsThrough(p, aims, i, h + 1);
    }
  }

  /** A builder's own check is reported, with the first field that offends, exactly when it is the first to stop the chain. */
  lemma SaveInvalidIff(p: Plan, init: seq<Fields>, x: nat, f: Field)
    requires |init| == |p.hooks| && x < |p.hooks|
    ensures Run(p, init).1 == Failure(Invalid(x, f))
       <==> && Reached(p, Aims(p, init), x, |p.hooks[x]|) && FirstOffence(p.schema, Aims(p, init)[x], f)
            && !RecoveredBefore(p, x, |p.hooks[x]|)
  {
    SaveErrorIff(p, init, x, |p.hooks[x]|, Invalid(x, f));
    CheckMeaning(p.schema, Aims(p, init)[x], f);
  }

  /** A veto is reported exactly when it is the hook that stops the chain. */
  lemma SaveVetoedIff(p: Plan, init: seq<Fields>, x: nat, g: nat)
    requires |init| == |p.hooks| && x < |p.hooks| && g < |p.hooks[x]|
    ensures Run(p, init).1 == Failure(Vetoed(x, g))
       <==> Reached(p, Aims(p, init), x, g) && p.hooks[x][g].Veto? && !RecoveredBefore(p, x, g)
  {
    SaveErrorIff(p, init, x, g, Vetoed(x, g));
  }

  /** A hook's own failure is reported exactly when the chain inside it reports success, and no hook outside recovers. */
  lemma SaveFailedAfterIff(p: Plan, init: seq<Fields>, x: nat, g: nat)
    requires |init| == |p.hooks| && x < |p.hooks| && g < |p.hooks[x]|
    ensures var (t, r) := Run(p, init);
            var aims := Aims(p, init);
            r == Failure(FailedAfter(x, g))
            <==> && Reached(p, aims, x, g) && p.hooks[x][g].Forward? && p.hooks[x][g].after.Fail?
                 && Says(Verdict(p, aims, x, g + 1), EndsStored(p, t)) && !RecoveredBefore(p, x, g)
  {
    SaveErrorIff(p, init, x, g, FailedAfter(x, g));
  }

  // ---------------------------------------------------------------------------- the marks

  /** A mutation is bound to its node exactly when it is marked done. */
  predicate BoundAsDone(s: State) {
    forall x | 0 <= x < |s.mutations| :: s.mutations[x].bound == s.mutations[x].done
  }

  lemma {:induction false} StaysBound(p: Plan, i: nat, h: nat, s: State)
    requires Shaped(p, s) && i < |p.hooks| && h <= |p.hooks[i]| && BoundAsDone(s)
    ensures BoundAsDone(Mutate(p, i, h, s).0)
    decreases |p.hooks| - i, |p.hooks[i]| - h
  {
    if h == |p.hooks[i]| {
      if Check(p.schema, s.mutations[i].fields).None? && i + 1 < |p.hooks| {
        StaysBound(p, i + 1, 0, Prepare(s, i));
      }
    } else if p.hooks[i][h].Forward? {
      StaysBound(p, i, h + 1, Entering(p, i, h, s));
      var (t, r) := Mutate(p, i, h + 1, Entering(p, i, h, s));
      if Retries(p, i, h) && r.Failure? {
        StaysBound(p, i, h + 1, Again(t, i, h));
        MutateTwice(p, i, h, s);
      }
    }
  }

  /** In every run, mutations are bound to their nodes exactly when they are marked done. */
  lemma SaveBinds(p: Plan, init: seq<Fields>)
    requires |init| == |p.hooks|
    ensures BoundAsDone(Run(p, init).0)
  {
    if init != [] {
      StaysBound(p, 0, 0, Start(init));
    }
  }
}
