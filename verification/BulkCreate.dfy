/** Bulk creation: every builder's hooks wrap the next builder, and only the last one inserts. */
module BulkCreate {
  import opened Basics

  // ------------------------------------------------------- fields and their checks

  datatype Field =
    | CreatedAt | UpdatedAt | Name | Platform | Type | Credentials | Extra | Concurrency | Priority
    | RateMultiplier | Status | AutoPauseOnExpired | Schedulable | SessionWindowStatus | QuotaDimension
    | Optional(name: string)

  type Fields = map<Field, string>

  /** A default is missing when the generated runtime package was not imported. */
  datatype Schema = Schema(defaults: Field -> Option<string>, accepts: (Field, string) -> bool)

  const DEFAULTED: seq<Field> :=
    [CreatedAt, UpdatedAt, Credentials, Extra, Concurrency, Priority, RateMultiplier, Status,
     AutoPauseOnExpired, Schedulable, QuotaDimension]

  /** The defaults whose value comes from a function that may be uninitialized. */
  predicate ComputedDefault(f: Field) {
    f == CreatedAt || f == UpdatedAt || f == Credentials || f == Extra
  }

  datatype Rule = Rule(field: Field, required: bool, validated: bool)

  const RULES: seq<Rule> :=
    [Rule(CreatedAt, true, false), Rule(UpdatedAt, true, false), Rule(Name, true, true), Rule(Platform, true, true),
     Rule(Type, true, true), Rule(Credentials, true, false), Rule(Extra, true, false), Rule(Concurrency, true, false),
     Rule(Priority, true, false), Rule(RateMultiplier, true, false), Rule(Status, true, true),
     Rule(AutoPauseOnExpired, true, false), Rule(Schedulable, true, false), Rule(SessionWindowStatus, false, true),
     Rule(QuotaDimension, true, true)]

  predicate Breaks(s: Schema, rule: Rule, m: Fields) {
    if rule.field in m then rule.validated && !s.accepts(rule.field, m[rule.field]) else rule.required
  }

  /** The first broken rule, in the order of `check`. */
  function FirstBroken(s: Schema, rules: seq<Rule>, m: Fields): Option<Field> {
    if rules == [] then None
    else if Breaks(s, rules[0], m) then Some(rules[0].field)
    else FirstBroken(s, rules[1..], m)
  }

  function Check(s: Schema, m: Fields): Option<Field> {
    FirstBroken(s, RULES, m)
  }

  /** `defaults` fills what is unset, and gives up at the first computed default that is not initialized. */
  function FillDefaults(s: Schema, fields: seq<Field>, m: Fields): Fields {
    if fields == [] then m
    else if fields[0] in m then FillDefaults(s, fields[1..], m)
    else if s.defaults(fields[0]).None? then (if ComputedDefault(fields[0]) then m else FillDefaults(s, fields[1..], m))
    else FillDefaults(s, fields[1..], m[fields[0] := s.defaults(fields[0]).value])
  }

  // ----------------------------------------------------------------- hooks and runs

  /** What a hook does once the rest of the chain has returned. */
  datatype After = Return | Fail | Recover | Retry

  /** What a hook does to the fields: set some, clear others. */
  type Edits = map<Field, Option<string>>

  function Write(m: Fields, edits: Edits): Fields {
    map f | f in m.Keys + edits.Keys && (f in edits ==> edits[f].Some?) :: if f in edits then edits[f].value else m[f]
  }

  datatype Hook = Veto | ShortCircuit | Forward(edits: Edits, after: After)

  datatype Batch = Rejected | Stored(ids: map<nat, int>)

  /** The hooks of every builder, outermost first, and what the n-th batch insert would do. */
  datatype Plan = Plan(schema: Schema, hooks: seq<seq<Hook>>, batch: nat -> Batch)

  datatype BulkError = Vetoed(i: nat, h: nat) | FailedAfter(i: nat, h: nat) | Invalid(i: nat, field: Field) | InsertFailed

  datatype Outcome = Success | Failure(error: BulkError)

  datatype Event = Pre(i: nat, h: nat) | Insert | Post(i: nat, h: nat)

  datatype Mutation = Mutation(fields: Fields, bound: bool, done: bool)

  datatype Node = Node(fields: Fields, id: int)

  datatype State = State(
    mutations: seq<Mutation>,
    specs: seq<Option<Fields>>,
    nodes: seq<Option<Node>>,
    ids: map<nat, int>,
    inserts: seq<seq<Option<Fields>>>,
    trace: seq<Event>)

  predicate Shaped(p: Plan, s: State) {
    |s.mutations| == |s.specs| == |s.nodes| == |p.hooks|
  }

  function Edit(s: State, i: nat, edits: Edits): State
    requires i < |s.mutations|
  {
    s.(mutations := s.mutations[i := s.mutations[i].(fields := Write(s.mutations[i].fields, edits))])
  }

  function Log(s: State, e: Event): State {
    s.(trace := s.trace + [e])
  }

  /** `createSpec` for builder `i`: a fresh spec, without an ID. */
  function Prepare(s: State, i: nat): State
    requires i < |s.mutations| == |s.specs| == |s.nodes|
  {
    var m := s.mutations[i].fields;
    s.(specs := s.specs[i := Some(m)], nodes := s.nodes[i := Some(Node(m, 0))], ids := s.ids - {i})
  }

  function BatchInsert(p: Plan, s: State): (State, Outcome) {
    var t := Log(s.(inserts := s.inserts + [s.specs]), Insert);
    match p.batch(|s.inserts|)
    case Rejected => (t, Failure(InsertFailed))
    case Stored(ids) => (t.(ids := s.ids + ids), Success)
  }

  /** What builder `i` does while the chain unwinds without error. */
  function Finish(s: State, i: nat): State
    requires i < |s.mutations| == |s.nodes|
  {
    var node := match s.nodes[i]
                case None => None
                case Some(n) => Some(if i in s.ids then n.(id := s.ids[i]) else n);
    s.(mutations := s.mutations[i := s.mutations[i].(bound := true, done := true)], nodes := s.nodes[i := node])
  }

  /** Mutator `i` from its hook `h` inwards; hook number `|hooks|` is the builder itself. */
  function Mutate(p: Plan, i: nat, h: nat, s: State): (r: (State, Outcome))
    requires Shaped(p, s) && i < |p.hooks| && h <= |p.hooks[i]|
    ensures Shaped(p, r.0)
    decreases |p.hooks| - i, |p.hooks[i]| - h
  {
    if h == |p.hooks[i]| then
      var broken := Check(p.schema, s.mutations[i].fields);
      if broken.Some? then (s, Failure(Invalid(i, broken.value)))
      else
        var (t, r) := if i + 1 < |p.hooks| then Mutate(p, i + 1, 0, Prepare(s, i)) else BatchInsert(p, Prepare(s, i));
        if r.Failure? then (t, r) else (Finish(t, i), Success)
    else
      match p.hooks[i][h]
      case Veto => (s, Failure(Vetoed(i, h)))
      case ShortCircuit => (s, Success)
      case Forward(edits, after) =>
        var (t, r) := Mutate(p, i, h + 1, Log(Edit(s, i, edits), Pre(i, h)));
        var t := Log(t, Post(i, h));
        match after
        case Return => (t, r)
        case Fail => (t, if r.Success? then Failure(FailedAfter(i, h)) else r)
        case Recover => (t, Success)
        case Retry =>
          if r.Success? then (t, r)
          else
            var (u, r2) := Mutate(p, i, h + 1, Log(t, Pre(i, h)));
            (Log(u, Post(i, h)), r2)
  }

  function Start(init: seq<Fields>): State {
    State(seq(|init|, i requires 0 <= i < |init| => Mutation(init[i], false, false)),
          seq(|init|, i => None), seq(|init|, i => None), map[], [], [])
  }

  /** The chain from its first mutator, on builders whose defaults are set. */
  function Run(p: Plan, init: seq<Fields>): (r: (State, Outcome))
    requires |init| == |p.hooks|
    ensures Shaped(p, r.0)
  {
    if init == [] then (Start(init), Success) else Mutate(p, 0, 0, Start(init))
  }

  // ----------------------------------------------------------- defaults, then checks

  lemma {:induction false} FirstBrokenNone(s: Schema, rules: seq<Rule>, m: Fields)
    ensures FirstBroken(s, rules, m).None? <==> forall k | 0 <= k < |rules| :: !Breaks(s, rules[k], m)
  {
    if rules != [] {
      FirstBrokenNone(s, rules[1..], m);
      assert forall k | 1 <= k < |rules| :: rules[k] == rules[1..][k - 1];
      assert forall k | 0 <= k < |rules| - 1 :: rules[1..][k] == rules[k + 1];
    }
  }

  /** Every default that is needed is there. */
  predicate Available(s: Schema, fields: seq<Field>, m: Fields) {
    forall f | f in fields :: f in m || s.defaults(f).Some?
  }

  lemma {:induction false} FilledFields(s: Schema, fields: seq<Field>, m: Fields)
    ensures var t := FillDefaults(s, fields, m);
            && (forall f | f in t :: f in m || (f in fields && s.defaults(f).Some?))
            && (Available(s, fields, m) ==> forall f :: f in t <==> f in m || f in fields)
            && (forall f | f in m :: f in t)
            && (forall f | f in t :: t[f] == if f in m then m[f] else s.defaults(f).value)
  {
    if fields != [] {
      FilledFields(s, fields[1..], m);
      if fields[0] !in m && s.defaults(fields[0]).Some? {
        FilledFields(s, fields[1..], m[fields[0] := s.defaults(fields[0]).value]);
      }
    }
  }

  lemma RequiredAreDefaulted(k: nat)
    requires k < |RULES|
    ensures RULES[k].required ==> RULES[k].field in DEFAULTED || RULES[k].field in [Name, Platform, Type]
    ensures RULES[k].field in [Name, Platform, Type] ==> RULES[k].required && RULES[k].field !in DEFAULTED
  {
    assert DEFAULTED[0] == CreatedAt && DEFAULTED[1] == UpdatedAt && DEFAULTED[2] == Credentials && DEFAULTED[3] == Extra;
    assert DEFAULTED[4] == Concurrency && DEFAULTED[5] == Priority && DEFAULTED[6] == RateMultiplier && DEFAULTED[7] == Status;
    assert DEFAULTED[8] == AutoPauseOnExpired && DEFAULTED[9] == Schedulable && DEFAULTED[10] == QuotaDimension;
  }

  lemma DefaultedAreRequired(f: Field) returns (k: nat)
    requires f in DEFAULTED
    ensures k < |RULES| && RULES[k].field == f && RULES[k].required
  {
    k := if f == CreatedAt then 0
         else if f == UpdatedAt then 1
         else if f == Credentials then 5
         else if f == Extra then 6
         else if f == Concurrency then 7
         else if f == Priority then 8
         else if f == RateMultiplier then 9
         else if f == Status then 10
         else if f == AutoPauseOnExpired then 11
         else if f == Schedulable then 12
         else 14;
  }

  /** A set value that its validator refuses. */
  predicate Refused(s: Schema, rule: Rule, m: Fields) {
    rule.validated && rule.field in m && !s.accepts(rule.field, m[rule.field])
  }

  /** A rule on one of the three fields without a default, which is not set. */
  predicate Missing(rule: Rule, m: Fields) {
    rule.field in [Name, Platform, Type] && rule.field !in m
  }

  lemma RuleAfterDefaults(s: Schema, m: Fields, t: Fields, k: nat)
    requires k < |RULES| && forall f :: f in t <==> f in m || f in DEFAULTED
    ensures Breaks(s, RULES[k], t) <==> Refused(s, RULES[k], t) || Missing(RULES[k], m)
  {
    RequiredAreDefaulted(k);
  }

  lemma NoneMissing(m: Fields)
    ensures (forall k | 0 <= k < |RULES| :: !Missing(RULES[k], m)) <==> Name in m && Platform in m && Type in m
  {
    assert RULES[2].field == Name && RULES[3].field == Platform && RULES[4].field == Type;
  }

  lemma CheckWithoutDefault(s: Schema, m: Fields)
    requires !Available(s, DEFAULTED, m)
    ensures Check(s, FillDefaults(s, DEFAULTED, m)).Some?
  {
    var t := FillDefaults(s, DEFAULTED, m);
    var f :| f in DEFAULTED && f !in m && s.defaults(f).None?;
    FilledFields(s, DEFAULTED, m);
    FirstBrokenNone(s, RULES, t);
    var k := DefaultedAreRequired(f);
    assert Breaks(s, RULES[k], t);
  }

  lemma CheckAfterRules(s: Schema, m: Fields)
    ensures var t := FillDefaults(s, DEFAULTED, m);
            Check(s, t).None? <==>
              && Name in m && Platform in m && Type in m
              && Available(s, DEFAULTED, m)
              && forall k | 0 <= k < |RULES| :: !Refused(s, RULES[k], t)
  {
    if Available(s, DEFAULTED, m) {
      CheckWithDefaults(s, m);
    } else {
      CheckWithoutDefault(s, m);
    }
  }

  lemma CheckWithDefaults(s: Schema, m: Fields)
    requires Available(s, DEFAULTED, m)
    ensures var t := FillDefaults(s, DEFAULTED, m);
            Check(s, t).None? <==>
              Name in m && Platform in m && Type in m && forall k | 0 <= k < |RULES| :: !Refused(s, RULES[k], t)
  {
    var t := FillDefaults(s, DEFAULTED, m);
    FilledFields(s, DEFAULTED, m);
    FirstBrokenNone(s, RULES, t);
    forall k | 0 <= k < |RULES|
      ensures Breaks(s, RULES[k], t) <==> Refused(s, RULES[k], t) || Missing(RULES[k], m)
    {
      RuleAfterDefaults(s, m, t, k);
    }
    NoneMissing(m);
  }

  // -------------------------------------------------------------------- the builder

  function FillAll(s: Schema, builders: seq<Fields>): seq<Fields> {
    seq(|builders|, i requires 0 <= i < |builders| => FillDefaults(s, DEFAULTED, builders[i]))
  }

  /** `AccountCreateBulk`: the slices that the closures of `Save` share. */
  class AccountCreateBulk {
    const plan: Plan
    var mutations: seq<Mutation>
    var specs: seq<Option<Fields>>
    var nodes: seq<Option<Node>>
    var ids: map<nat, int>
    var inserts: seq<seq<Option<Fields>>>
    var trace: seq<Event>

    ghost predicate Valid()
      reads this
    {
      |mutations| == |specs| == |nodes| == |plan.hooks|
    }

    ghost function Now(): State
      reads this
    {
      State(mutations, specs, nodes, ids, inserts, trace)
    }

    constructor (plan: Plan, builders: seq<Fields>)
      requires |builders| == |plan.hooks|
      ensures this.plan == plan && Valid() && Now() == Start(builders)
    {
      this.plan := plan;
      mutations := seq(|builders|, i requires 0 <= i < |builders| => Mutation(builders[i], false, false));
      specs, nodes := seq(|builders|, i => None), seq(|builders|, i => None);
      ids, inserts, trace := map[], [], [];
    }

    /** `sqlgraph.BatchCreate` on the collected specs. */
    method InsertBatch() returns (r: Outcome)
      requires Valid()
      modifies this
      ensures Valid() && (Now(), r) == BatchInsert(plan, old(Now()))
    {
      var result := plan.batch(|inserts|);
      inserts := inserts + [specs];
      trace := trace + [Insert];
      match result {
        case Rejected => r := Failure(InsertFailed);
        case Stored(given) =>
          ids := ids + given;
          r := Success;
      }
    }

    /** The closure of builder `i`: check, spec, the rest of the chain, and the completion flags while unwinding. */
    method Create(i: nat) returns (r: Outcome)
      requires Valid() && i < |plan.hooks|
      modifies this
      ensures Valid() && (Now(), r) == Mutate(plan, i, |plan.hooks[i]|, old(Now()))
      decreases |plan.hooks| - i, 0, 0
    {
      var broken := Check(plan.schema, mutations[i].fields);
      if broken.Some? {
        return Failure(Invalid(i, broken.value));
      }
      var fields := mutations[i].fields;
      nodes, specs, ids := nodes[i := Some(Node(fields, 0))], specs[i := Some(fields)], ids - {i};
      if i + 1 < |plan.hooks| {
        r := Hooked(i + 1, 0);
      } else {
        r := InsertBatch();
      }
      if r.Failure? {
        return;
      }
      ghost var inner := Now();
      mutations := mutations[i := mutations[i].(bound := true)];
      if i in ids && nodes[i].Some? {
        nodes := nodes[i := Some(nodes[i].value.(id := ids[i]))];
      }
      mutations := mutations[i := mutations[i].(done := true)];
      assert mutations == Finish(inner, i).mutations && nodes == Finish(inner, i).nodes;
      r := Success;
    }

    /** Mutator `i`, from its hook `h` inwards. */
    method Hooked(i: nat, h: nat) returns (r: Outcome)
      requires Valid() && i < |plan.hooks| && h <= |plan.hooks[i]|
      modifies this
      ensures Valid() && (Now(), r) == Mutate(plan, i, h, old(Now()))
      decreases |plan.hooks| - i, |plan.hooks[i]| - h, 1
    {
      if h == |plan.hooks[i]| {
        r := Create(i);
        return;
      }
      match plan.hooks[i][h] {
        case Veto => return Failure(Vetoed(i, h));
        case ShortCircuit => return Success;
        case Forward(edits, after) =>
          mutations := mutations[i := mutations[i].(fields := Write(mutations[i].fields, edits))];
          trace := trace + [Pre(i, h)];
          r := Hooked(i, h + 1);
          trace := trace + [Post(i, h)];
          match after {
            case Return =>
            case Fail => if r.Success? { r := Failure(FailedAfter(i, h)); }
            case Recover => r := Success;
            case Retry =>
              if r.Failure? {
                trace := trace + [Pre(i, h)];
                r := Hooked(i, h + 1);
                trace := trace + [Post(i, h)];
              }
          }
      }
    }

    ghost function Given(): (fs: seq<Fields>)
      reads this
      ensures |fs| == |mutations|
    {
      seq(|mutations|, i requires 0 <= i < |mutations| reads this => mutations[i].fields)
    }

    /** `Save` on a fresh bulk builder: fill the defaults, ignoring their error, then run the chain. */
    method Save() returns (r: Result<seq<Option<Node>>, BulkError>)
      requires Valid() && Now() == Start(Given())
      modifies this
      ensures Valid()
      ensures var init := FillAll(plan.schema, old(Given()));
              && |init| == |plan.hooks|
              && Now() == Run(plan, init).0
              && r == match Run(plan, init).1 case Success => Ok(nodes) case Failure(e) => Err(e)
    {
      ghost var given := Given();
      for i := 0 to |mutations|
        invariant Valid() && |mutations| == |given|
        invariant Now() == Start(given).(mutations := mutations)
        invariant forall x | 0 <= x < |mutations| :: mutations[x]
                    == Mutation(if x < i then FillDefaults(plan.schema, DEFAULTED, given[x]) else given[x], false, false)
      {
        mutations := mutations[i := mutations[i].(fields := FillDefaults(plan.schema, DEFAULTED, mutations[i].fields))];
      }
      assert mutations == Start(FillAll(plan.schema, given)).mutations;
      assert Now() == Start(FillAll(plan.schema, given));
      if |mutations| > 0 {
        var o := Hooked(0, 0);
        if o.Failure? {
          return Err(o.error);
        }
      }
      return Ok(nodes);
    }
  }
}
