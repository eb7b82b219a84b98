/** What the gate's exit code means, and what it does not depend on. */
module AuditTheorems {
  import opened Basics
  import opened Strings
  import opened JsonValues
  import AuditParser
  import opened AuditGate

  // --------------------------------------------------------- what reaches the gate

  predicate NamesAdvisory(items: seq<Via>) {
    exists i | 0 <= i < |items| :: Truthy(ViaId(items[i]))
  }

  predicate Severe(severity: Scalar) {
    NormalizeSeverity(SeverityText(severity)) == HIGH || NormalizeSeverity(SeverityText(severity)) == CRITICAL
  }

  lemma OneVulnerability(v: Vulnerability)
    ensures Findings(Report([], [v])) == ViaFindings(v, ViaItems(v.via))
    ensures FirstUnjoined([v]).None? <==> TitlesJoin(v)
  {
    var found := ViaFindings(v, ViaItems(v.via));
    assert [v][1..] == [] && found + [] == found && [] + found == found;
    assert VulnerabilityFindings([v]) == found;
    assert AdvisoryFindings([]) == [];
    UnjoinedIff([v]);
    assert v in [v];
  }

  /** An entry of the `vulnerabilities` section raises when its titles do not join. Otherwise it gets any attention
      exactly when it is high or critical, has a name, and one of its `via` items names an advisory. One that names
      none is not an error. */
  lemma NoticedIff(v: Vulnerability)
    ensures match Iterate(Report([], [v]))
            case Err(_) => !TitlesJoin(v)
            case Ok(fs) =>
              && TitlesJoin(v)
              && ((exists f | f in fs :: !Read(f).Ignored?) <==> Severe(v.severity) && v.name != [] && NamesAdvisory(ViaItems(v.via)))
  {
    var found := ViaFindings(v, ViaItems(v.via));
    ReportedIff(v, ViaItems(v.via));
    OneVulnerability(v);
    if found != [] {
      assert found[0] in found;
      assert Read(found[0]).Ignored? <==> !(Severe(v.severity) && v.name != []);
    }
  }

  /** Where an advisory's identifier is looked for, in order of preference. */
  function Places(a: Advisory): seq<Scalar> {
    [a.githubId, a.url, if a.cves == [] then Absent else a.cves[0], if a.id.Absent? then Absent else Text(Str(a.id)),
     a.title, a.advisory, a.overview]
  }

  predicate FirstTrueAt(vs: seq<Scalar>, k: nat)
    requires k < |vs|
  {
    Truthy(vs[k]) && forall j | 0 <= j < k :: !Truthy(vs[j])
  }

  /** An advisory reaches the gate by the first of seven places that has something to say, or else by the last; it is
      an error exactly when it is high or critical and named, and that value is blank. */
  lemma AdvisoryReadIff(a: Advisory) returns (k: nat)
    ensures k < 7 && (FirstTrueAt(Places(a), k) || (k == 6 && forall j | 0 <= j < 7 :: !Truthy(Places(a)[j])))
    ensures AdvisoryFinding(a) == Finding(if Truthy(a.moduleName) then a.moduleName else a.name, a.severity, Places(a)[k])
    ensures Read(AdvisoryFinding(a)).Unidentified?
       <==> && Severe(a.severity)
            && (Truthy(a.moduleName) || Truthy(a.name))
            && NormalizeAdvisory(Places(a)[k]) == []
  {
    var vs := Places(a);
    k := FirstTrue(vs, 0);
    assert (k > 0 ==> !Truthy(vs[0])) && (k > 1 ==> !Truthy(vs[1])) && (k > 2 ==> !Truthy(vs[2]));
    assert (k > 3 ==> !Truthy(vs[3])) && (k > 4 ==> !Truthy(vs[4])) && (k > 5 ==> !Truthy(vs[5]));
    assert PickAdvisoryId(a) == vs[k];
  }

  /** The first true one of the places, or else the last. */
  predicate Picks(vs: seq<Scalar>, v: Scalar) {
    exists k | 0 <= k < |vs| :: v == vs[k] && (FirstTrueAt(vs, k) || (k == |vs| - 1 && forall j | 0 <= j < |vs| :: !Truthy(vs[j])))
  }

  /** An object in `via` names its advisory by the first of five places, and adds the first of four to the title; a text
      does both itself, and anything else neither. */
  lemma ViaMeaning(v: Via)
    ensures match v
            case ViaObject(githubId, url, source, title, name, advisory) =>
              && Picks([githubId, url, source, title, name], ViaId(v))
              && Picks([title, url, advisory, source], TitleOf(v))
            case ViaText(text) => ViaId(v) == TitleOf(v) == Text(text)
            case ViaOther => ViaId(v) == TitleOf(v) == Absent
  {
    if v.ViaObject? {
      var ids, titles := [v.githubId, v.url, v.source, v.title, v.name], [v.title, v.url, v.advisory, v.source];
      var i := FirstTrue(ids, 0);
      var j := FirstTrue(titles, 0);
      assert (i > 0 ==> !Truthy(ids[0])) && (i > 1 ==> !Truthy(ids[1])) && (i > 2 ==> !Truthy(ids[2])) && (i > 3 ==> !Truthy(ids[3]));
      assert (j > 0 ==> !Truthy(titles[0])) && (j > 1 ==> !Truthy(titles[1])) && (j > 2 ==> !Truthy(titles[2]));
      assert ViaId(v) == ids[i] && TitleOf(v) == titles[j];
    }
  }

  lemma {:induction false} ViaFindingsAppend(v: Vulnerability, a: seq<Via>, b: seq<Via>)
    ensures ViaFindings(v, a + b) == ViaFindings(v, a) + ViaFindings(v, b)
  {
    if a == [] {
      assert a + b == b;
    } else {
      assert (a + b)[1..] == a[1..] + b;
      ViaFindingsAppend(v, a[1..], b);
    }
  }

  lemma {:induction false} VulnerabilityFindingsAppend(vs: seq<Vulnerability>, ws: seq<Vulnerability>)
    ensures VulnerabilityFindings(vs + ws) == VulnerabilityFindings(vs) + VulnerabilityFindings(ws)
  {
    if vs == [] {
      assert vs + ws == ws;
    } else {
      assert (vs + ws)[1..] == vs[1..] + ws;
      VulnerabilityFindingsAppend(vs[1..], ws);
      Reassociated(ViaFindings(vs[0], ViaItems(vs[0].via)), VulnerabilityFindings(vs[1..]), VulnerabilityFindings(ws));
    }
  }

  lemma OneSection(a: seq<Advisory>, vs: seq<Vulnerability>)
    ensures Findings(Report(a, [])) == AdvisoryFindings(a) && Findings(Report([], vs)) == VulnerabilityFindings(vs)
  {
    assert VulnerabilityFindings([]) == [] && AdvisoryFindings([]) == [];
    assert AdvisoryFindings(a) + [] == AdvisoryFindings(a) && [] + VulnerabilityFindings(vs) == VulnerabilityFindings(vs);
  }

  /** Findings come in the order of the report: advisories first, then vulnerabilities, one after the other. */
  lemma FindingsInOrder(a: seq<Advisory>, b: seq<Advisory>, vs: seq<Vulnerability>, ws: seq<Vulnerability>)
    ensures Findings(Report(a, vs)) == Findings(Report(a, [])) + Findings(Report([], vs))
    ensures Findings(Report(a + b, [])) == Findings(Report(a, [])) + Findings(Report(b, []))
    ensures Findings(Report([], vs + ws)) == Findings(Report([], vs)) + Findings(Report([], ws))
  {
    OneSection(a, vs);
    OneSection(b, ws);
    OneSection(a + b, vs + ws);
    VulnerabilityFindingsAppend(vs, ws);
    assert AdvisoryFindings(a + b) == AdvisoryFindings(a) + AdvisoryFindings(b);
  }

  lemma {:induction false} SameFindings(v: Vulnerability, w: Vulnerability, items: seq<Via>)
    requires v.name == w.name && v.severity == w.severity
    ensures ViaFindings(v, items) == ViaFindings(w, items)
  {
    if items != [] {
      SameFindings(v, w, items[1..]);
    }
  }

  /** What a report of a single vulnerability yields. */
  function FindingsOfOne(name: string, severity: Scalar, via: Vias): seq<Finding> {
    Findings(Report([], [Vulnerability(name, severity, via)]))
  }

  lemma OneByItems(name: string, severity: Scalar, via: Vias)
    ensures FindingsOfOne(name, severity, via) == ViaFindings(Vulnerability(name, severity, NoVias), ViaItems(via))
  {
    OneVulnerability(Vulnerability(name, severity, via));
    SameFindings(Vulnerability(name, severity, via), Vulnerability(name, severity, NoVias), ViaItems(via));
  }

  lemma SingleVia(v: Vulnerability, item: Via)
    ensures ViaFindings(v, [item]) == if Truthy(ViaId(item)) then [Finding(Text(v.name), v.severity, ViaId(item))] else []
  {
    var one: seq<Finding> := if Truthy(ViaId(item)) then [Finding(Text(v.name), v.severity, ViaId(item))] else [];
    assert [item][1..] == [] && ViaFindings(v, []) == [] && one + [] == one;
  }

  /** A vulnerability gives one finding for each of its `via` items that names an advisory, in their order. */
  lemma FindingsOfItems(name: string, severity: Scalar, a: seq<Via>, item: Via, b: seq<Via>)
    ensures FindingsOfOne(name, severity, Several(a + b))
         == FindingsOfOne(name, severity, Several(a)) + FindingsOfOne(name, severity, Several(b))
    ensures FindingsOfOne(name, severity, Several([item]))
         == if Truthy(ViaId(item)) then [Finding(Text(name), severity, ViaId(item))] else []
    ensures FindingsOfOne(name, severity, Several([])) == [] && FindingsOfOne(name, severity, NoVias) == []
    ensures item.ViaText? ==> FindingsOfOne(name, severity, Single(item.text)) == FindingsOfOne(name, severity, Several([item]))
  {
    var v := Vulnerability(name, severity, NoVias);
    OneByItems(name, severity, Several(a));
    OneByItems(name, severity, Several(b));
    OneByItems(name, severity, Several(a + b));
    OneByItems(name, severity, Several([item]));
    OneByItems(name, severity, Several([]));
    OneByItems(name, severity, NoVias);
    if item.ViaText? {
      OneByItems(name, severity, Single(item.text));
    }
    ViaFindingsAppend(v, a, b);
    SingleVia(v, item);
  }

  lemma {:induction false} FirstTrue(vs: seq<Scalar>, start: nat) returns (k: nat)
    requires start < |vs| && forall j | 0 <= j < start :: !Truthy(vs[j])
    ensures k < |vs| && (FirstTrueAt(vs, k) || (k == |vs| - 1 && forall j | 0 <= j < |vs| :: !Truthy(vs[j])))
    decreases |vs| - start
  {
    if Truthy(vs[start]) || start == |vs| - 1 {
      k := start;
    } else {
      k := FirstTrue(vs, start + 1);
    }
  }

  // ------------------------------------------------ exceptions written for findings

  /** An exception that copies a finding's name, advisory and severity. */
  function ExceptionFor(f: Finding, mitigation: string, date: string): AuditParser.Entry {
    map[PACKAGE := Str(f.name), ADVISORY := Str(f.advisory), SEVERITY := SeverityText(f.severity), MITIGATION := mitigation, EXPIRES_ON := date]
  }

  lemma KeyedParts(f: Finding)
    requires Read(f).Keyed?
    ensures Read(f).key == (NormalizePackage(f.name), NormalizeAdvisory(f.advisory)) && Read(f).severity == NormalizeSeverity(SeverityText(f.severity))
    ensures SeverityText(f.severity) != [] && Str(f.advisory) != []
    ensures NormalizePackage(f.name) != [] ==> Str(f.name) != []
  {
  }

  /** Copying a finding into an exception excuses it, up to the date; unless its name is blank. */
  lemma ExceptionForFinding(c: Calendar, f: Finding, mitigation: string, date: string)
    requires Read(f).Keyed? && NormalizePackage(f.name) != []
    requires mitigation != [] && date != [] && c(date).Some?
    ensures Judge(c, ExceptionFor(f, mitigation, date)) == Good(Read(f).key, Read(f).severity, c(date).value)
  {
  }

  lemma GoodKeys(c: Calendar, e: AuditParser.Entry)
    requires Judge(c, e).Good?
    ensures Judge(c, e).key.0 != [] && Judge(c, e).key.1 != []
  {
  }

  lemma ExcusedHasName(c: Calendar, f: Finding, e: AuditParser.Entry, today: int)
    requires Read(f).Keyed? && ExitCode([Judge(c, e)], [Read(f)], today) == 0
    ensures NormalizePackage(f.name) != []
  {
    ExitExact([Judge(c, e)], [Read(f)], today);
    KeyedParts(f);
    assert Excused([Judge(c, e)], [Read(f)][0], today);
    GoodKeys(c, e);
  }

  lemma GoodIsEnough(j: Judgement, r: Reading, today: int)
    requires r.Keyed? && j.Good? && j.key == r.key && j.severity == r.severity && j.expires >= today
    ensures ExitCode([j], [r], today) == 0
  {
    ExitExact([j], [r], today);
    assert [j][0].Good?;
  }

  lemma NamedIsExcusable(c: Calendar, f: Finding, date: string, today: int)
    requires Read(f).Keyed? && date != [] && c(date).Some? && c(date).value >= today && NormalizePackage(f.name) != []
    ensures ExitCode([Judge(c, ExceptionFor(f, MITIGATION, date))], [Read(f)], today) == 0
  {
    ExceptionForFinding(c, f, MITIGATION, date);
    GoodIsEnough(Judge(c, ExceptionFor(f, MITIGATION, date)), Read(f), today);
  }

  /** A finding can be excused at all exactly when its name is not blank. */
  lemma ExcusableIff(c: Calendar, f: Finding, date: string, today: int)
    requires Read(f).Keyed? && date != [] && c(date).Some? && c(date).value >= today
    ensures (exists e :: ExitCode([Judge(c, e)], [Read(f)], today) == 0) <==> NormalizePackage(f.name) != []
  {
    if e :| ExitCode([Judge(c, e)], [Read(f)], today) == 0 {
      ExcusedHasName(c, f, e, today);
    }
    if NormalizePackage(f.name) != [] {
      NamedIsExcusable(c, f, date, today);
    }
  }

  // --------------------------------------------------------- the exact exit code

  predicate AllGood(js: seq<Judgement>) {
    forall i | 0 <= i < |js| :: js[i].Good?
  }

  /** Some exception covers the finding today. */
  predicate Excused(js: seq<Judgement>, r: Reading, today: int) {
    r.Keyed? && exists i | 0 <= i < |js| :: js[i].Good? && js[i].key == r.key && js[i].expires >= today
  }

  /** No exception for the key names another severity. */
  predicate SeverityFits(js: seq<Judgement>, r: Reading) {
    r.Keyed? ==> forall i | 0 <= i < |js| :: js[i].Good? && js[i].key == r.key ==> js[i].severity == [] || js[i].severity == r.severity
  }

  predicate Sound(js: seq<Judgement>) {
    AllGood(js) && KeysDistinctUpTo(js, |js|)
  }

  predicate AllExcused(js: seq<Judgement>, rs: seq<Reading>, today: int) {
    forall x | 0 <= x < |rs| :: rs[x].Ignored? || Excused(js, rs[x], today)
  }

  predicate FirstFit(js: seq<Judgement>, rs: seq<Reading>) {
    forall x | 0 <= x < |rs| && FirstOfKey(rs, x) :: SeverityFits(js, rs[x])
  }

  /** The declarative meaning of success: no index, no state, no order of work. */
  predicate Passes(js: seq<Judgement>, rs: seq<Reading>, today: int) {
    Sound(js) && AllExcused(js, rs, today) && FirstFit(js, rs)
  }

  lemma {:induction false} EveryKeyHasAFirst(rs: seq<Reading>, x: nat) returns (y: nat)
    requires x < |rs| && rs[x].Keyed?
    ensures y <= x && FirstOfKey(rs, y) && rs[y].key == rs[x].key
  {
    if FirstOfKey(rs, x) {
      y := x;
    } else {
      var z :| 0 <= z < x && rs[z].Keyed? && rs[z].key == rs[x].key;
      y := EveryKeyHasAFirst(rs, z);
    }
  }

  /** With a sound list, the index accepts a finding exactly when the list excuses it and its severity fits. */
  lemma AcceptedIff(js: seq<Judgement>, r: Reading, today: int)
    requires Sound(js) && r.Keyed?
    ensures Accepted(IndexUpTo(js, |js|).index, today, r) <==> Excused(js, r, today) && SeverityFits(js, r)
  {
    IndexClean(js, |js|);
    var index := IndexUpTo(js, |js|).index;
    if i :| 0 <= i < |js| && js[i].key == r.key {
      IndexFirst(js, |js|, i);
      assert forall k | 0 <= k < |js| && js[k].key == r.key :: k == i;
    }
  }

  /** Whether a finding is excused depends on its key only. */
  lemma ExcusedByKey(js: seq<Judgement>, r: Reading, s: Reading, today: int)
    requires r.Keyed? && s.Keyed? && r.key == s.key
    ensures Excused(js, r, today) <==> Excused(js, s, today)
  {
  }

  lemma AcceptedIffPasses(js: seq<Judgement>, rs: seq<Reading>, today: int)
    requires Sound(js)
    ensures AllAccepted(IndexUpTo(js, |js|).index, today, rs, |rs|) <==> AllExcused(js, rs, today) && FirstFit(js, rs)
  {
    var index := IndexUpTo(js, |js|).index;
    forall x | 0 <= x < |rs| && rs[x].Keyed?
      ensures Accepted(index, today, rs[x]) <==> Excused(js, rs[x], today) && SeverityFits(js, rs[x])
    {
      AcceptedIff(js, rs[x], today);
    }
    if AllAccepted(index, today, rs, |rs|) {
      forall x | 0 <= x < |rs| && !rs[x].Ignored? ensures Excused(js, rs[x], today) {
        var y := EveryKeyHasAFirst(rs, x);
        ExcusedByKey(js, rs[x], rs[y], today);
      }
    }
  }

  /** The exit code is 0 exactly when the exceptions are sound, every finding the gate looks at is
      excused, and the first finding of each key has the severity its exception names. */
  lemma ExitExact(js: seq<Judgement>, rs: seq<Reading>, today: int)
    ensures ExitCode(js, rs, today) == 0 <==> Passes(js, rs, today)
  {
    IndexClean(js, |js|);
    VisitClean(IndexUpTo(js, |js|).index, today, rs, |rs|);
    if Sound(js) {
      AcceptedIffPasses(js, rs, today);
    }
  }

  /** A low vulnerability that names its advisory by a number, and nothing else: there is nothing to object to, and
      the program exits with 1. */
  lemma NumericSourceFails(c: Calendar, today: int, name: string, source: int)
    requires source != 0
    ensures var via := ViaObject(Absent, Absent, Number(source), Absent, Text(name), Absent);
            var report := Report([], [Vulnerability(name, Text(['l', 'o', 'w']), Several([via]))]);
            && Gate(c, [], report, today) == 1
            && Passes(JudgeAll(c, []), ReadAll(Findings(report)), today)
  {
    var via := ViaObject(Absent, Absent, Number(source), Absent, Text(name), Absent);
    var v := Vulnerability(name, Text(['l', 'o', 'w']), Several([via]));
    assert !Joinable(TitleOf(ViaItems(v.via)[0]));
    NoticedIff(v);
    OneVulnerability(v);
    assert NormalizeSeverity(['l', 'o', 'w']) == ['l', 'o', 'w'];
    assert [via][1..] == [] && ViaFindings(v, []) == [];
    assert ViaFindings(v, [via]) == [Finding(Text(name), v.severity, Number(source))] + [];
  }

  // -------------------------------------------------------------------- the date

  /** What passes today passed on every earlier day. */
  lemma EarlierPasses(js: seq<Judgement>, rs: seq<Reading>, today: int, earlier: int)
    requires earlier <= today && ExitCode(js, rs, today) == 0
    ensures ExitCode(js, rs, earlier) == 0
  {
    ExitExact(js, rs, today);
    ExitExact(js, rs, earlier);
    forall x | 0 <= x < |rs| && !rs[x].Ignored? ensures Excused(js, rs[x], earlier) {
      assert Excused(js, rs[x], today);
    }
  }

  // ------------------------------------------------------ the order of exceptions

  lemma {:induction false} RepeatedTwice<T>(s: seq<T>, x: T)
    ensures multiset(s)[x] > 1 <==> exists i, j :: 0 <= i < j < |s| && s[i] == x && s[j] == x
  {
    if s != [] {
      var init, last := s[..|s| - 1], s[|s| - 1];
      assert s == init + [last];
      RepeatedTwice(init, x);
      assert multiset(s)[x] == multiset(init)[x] + (if last == x then 1 else 0);
      if last == x && multiset(init)[x] > 0 {
        assert x in init;
        var i :| 0 <= i < |init| && init[i] == x;
        assert s[i] == x && s[|s| - 1] == x;
      }
      if i, j :| 0 <= i < j < |s| && s[i] == x && s[j] == x {
        assert init[i] == x;
      }
    }
  }

  /** Soundness says something about which exceptions there are, and how often, only. */
  predicate SoundBag(b: multiset<Judgement>) {
    && (forall j | j in b :: j.Good? && b[j] == 1)
    && (forall j, k | j in b && k in b :: j != k && j.Good? && k.Good? ==> j.key != k.key)
  }

  lemma SoundIsSoundBag(js: seq<Judgement>)
    ensures Sound(js) <==> SoundBag(multiset(js))
  {
    forall j ensures multiset(js)[j] > 1 <==> exists i, k :: 0 <= i < k < |js| && js[i] == j && js[k] == j {
      RepeatedTwice(js, j);
    }
    forall i | 0 <= i < |js| ensures js[i] in multiset(js) {}
    if SoundBag(multiset(js)) {
      forall i, k | 0 <= i < k < |js| ensures js[i].Good? && js[k].Good? && js[i].key != js[k].key {
        assert multiset(js)[js[i]] == 1;
      }
    }
  }

  lemma SameExcuses(js: seq<Judgement>, ks: seq<Judgement>, r: Reading, today: int)
    requires forall j :: j in js <==> j in ks
    ensures Excused(js, r, today) <==> Excused(ks, r, today)
    ensures SeverityFits(js, r) <==> SeverityFits(ks, r)
  {
    assert forall i | 0 <= i < |js| :: js[i] in ks;
    assert forall i | 0 <= i < |ks| :: ks[i] in js;
  }

  /** The order of the exceptions does not matter. */
  lemma ExceptionOrderIrrelevant(js: seq<Judgement>, ks: seq<Judgement>, rs: seq<Reading>, today: int)
    requires multiset(js) == multiset(ks)
    ensures ExitCode(js, rs, today) == ExitCode(ks, rs, today)
  {
    ExitExact(js, rs, today);
    ExitExact(ks, rs, today);
    SoundIsSoundBag(js);
    SoundIsSoundBag(ks);
    forall j ensures j in js <==> j in ks {
      assert j in multiset(js) <==> j in multiset(ks);
    }
    forall x | 0 <= x < |rs|
      ensures Excused(js, rs[x], today) <==> Excused(ks, rs[x], today)
      ensures SeverityFits(js, rs[x]) <==> SeverityFits(ks, rs[x])
    {
      SameExcuses(js, ks, rs[x], today);
    }
  }

  // --------------------------------------------------------- the order of findings

  predicate AllFit(js: seq<Judgement>, rs: seq<Reading>) {
    forall r | r in rs :: SeverityFits(js, r)
  }

  /** Every key has a finding whose severity fits. */
  predicate SomeFit(js: seq<Judgement>, rs: seq<Reading>) {
    forall r | r in rs && r.Keyed? :: exists s | s in rs :: s.Keyed? && s.key == r.key && SeverityFits(js, s)
  }

  predicate Excusable(js: seq<Judgement>, rs: seq<Reading>, today: int) {
    Sound(js) && forall r | r in rs :: r.Ignored? || Excused(js, r, today)
  }

  ghost predicate Reordered(rs: seq<Reading>, ss: seq<Reading>) {
    multiset(rs) == multiset(ss)
  }

  lemma ReorderedMembers(rs: seq<Reading>, ss: seq<Reading>)
    requires Reordered(rs, ss)
    ensures forall r :: r in rs <==> r in ss
  {
    forall r ensures r in rs <==> r in ss {
      assert r in multiset(rs) <==> r in multiset(ss);
    }
  }

  lemma PassesMembers(js: seq<Judgement>, rs: seq<Reading>, today: int)
    ensures Passes(js, rs, today) <==> Excusable(js, rs, today) && FirstFit(js, rs)
  {
    assert forall x | 0 <= x < |rs| :: rs[x] in rs;
  }

  lemma WorstOrder(js: seq<Judgement>, rs: seq<Reading>) returns (ss: seq<Reading>)
    requires !AllFit(js, rs)
    ensures Reordered(rs, ss) && !FirstFit(js, ss)
  {
    var r :| r in rs && !SeverityFits(js, r);
    var x :| 0 <= x < |rs| && rs[x] == r;
    ss := [rs[x]] + rs[..x] + rs[x + 1..];
    assert rs == rs[..x] + [rs[x]] + rs[x + 1..];
    assert ss[0] == r && FirstOfKey(ss, 0);
  }

  lemma ReorderedPasses(js: seq<Judgement>, rs: seq<Reading>, ss: seq<Reading>, today: int)
    requires Reordered(rs, ss)
    ensures ExitCode(js, ss, today) == 0 <==> Excusable(js, rs, today) && FirstFit(js, ss)
  {
    ReorderedMembers(rs, ss);
    PassesMembers(js, ss, today);
    ExitExact(js, ss, today);
  }

  lemma AllFitInAnyOrder(js: seq<Judgement>, rs: seq<Reading>, ss: seq<Reading>)
    requires Reordered(rs, ss) && AllFit(js, rs)
    ensures FirstFit(js, ss)
  {
    ReorderedMembers(rs, ss);
    assert forall x | 0 <= x < |ss| :: ss[x] in rs;
  }

  /** Every order of the findings passes exactly when every severity fits. */
  lemma EveryOrderPassesIff(js: seq<Judgement>, rs: seq<Reading>, today: int)
    ensures (forall ss | Reordered(rs, ss) :: ExitCode(js, ss, today) == 0) <==> Excusable(js, rs, today) && AllFit(js, rs)
  {
    forall ss | Reordered(rs, ss) ensures ExitCode(js, ss, today) == 0 <==> Excusable(js, rs, today) && FirstFit(js, ss) {
      ReorderedPasses(js, rs, ss, today);
    }
    forall ss | Reordered(rs, ss) && AllFit(js, rs) ensures FirstFit(js, ss) {
      AllFitInAnyOrder(js, rs, ss);
    }
    assert Reordered(rs, rs);
    if !AllFit(js, rs) {
      var ss := WorstOrder(js, rs);
    }
  }

  /** When no key carries two severities, the order of the findings does not matter. */
  lemma FindingOrderIrrelevant(js: seq<Judgement>, rs: seq<Reading>, ss: seq<Reading>, today: int)
    requires Reordered(rs, ss)
    requires forall r, s | r in rs && s in rs && r.Keyed? && s.Keyed? && r.key == s.key :: r.severity == s.severity
    ensures ExitCode(js, rs, today) == ExitCode(js, ss, today)
  {
    ReorderedMembers(rs, ss);
    FirstFitIsAllFit(js, rs);
    FirstFitIsAllFit(js, ss);
    PassesMembers(js, rs, today);
    PassesMembers(js, ss, today);
    ExitExact(js, rs, today);
    ExitExact(js, ss, today);
  }

  lemma FirstFitIsAllFit(js: seq<Judgement>, rs: seq<Reading>)
    requires forall r, s | r in rs && s in rs && r.Keyed? && s.Keyed? && r.key == s.key :: r.severity == s.severity
    ensures FirstFit(js, rs) <==> AllFit(js, rs)
  {
    assert forall x | 0 <= x < |rs| :: rs[x] in rs;
    if FirstFit(js, rs) {
      forall r | r in rs && r.Keyed? ensures SeverityFits(js, r) {
        var x :| 0 <= x < |rs| && rs[x] == r;
        var y := EveryKeyHasAFirst(rs, x);
        assert rs[y] in rs && SeverityFits(js, rs[y]);
      }
    }
  }

  // ------------------------------------------------- when the order does matter

  function Fitting(js: seq<Judgement>, rs: seq<Reading>, fit: bool): (r: seq<Reading>)
    ensures forall x | x in r :: x in rs && SeverityFits(js, x) == fit
    ensures forall x | x in rs && SeverityFits(js, x) == fit :: x in r
  {
    if rs == [] then []
    else (if SeverityFits(js, rs[0]) == fit then [rs[0]] else []) + Fitting(js, rs[1..], fit)
  }

  lemma {:induction false} FittingSplits(js: seq<Judgement>, rs: seq<Reading>)
    ensures multiset(Fitting(js, rs, true)) + multiset(Fitting(js, rs, false)) == multiset(rs)
  {
    if rs != [] {
      FittingSplits(js, rs[1..]);
      assert rs == [rs[0]] + rs[1..];
    }
  }

  /** With the fitting findings in front, a key that has one starts with one. */
  lemma FittingFirst(js: seq<Judgement>, good: seq<Reading>, bad: seq<Reading>)
    requires forall r | r in good :: SeverityFits(js, r)
    requires forall r | r in bad && r.Keyed? :: exists s | s in good :: s.Keyed? && s.key == r.key
    ensures FirstFit(js, good + bad)
  {
    var ss := good + bad;
    forall x | |good| <= x < |ss| && ss[x].Keyed? ensures !FirstOfKey(ss, x) {
      assert ss[x] in bad;
      var s :| s in good && s.Keyed? && s.key == ss[x].key;
      var y :| 0 <= y < |good| && good[y] == s;
      assert ss[y] == s;
    }
    assert forall x | 0 <= x < |good| :: ss[x] in good;
  }

  /** An order that passes whenever any does. */
  lemma BestOrder(js: seq<Judgement>, rs: seq<Reading>) returns (ss: seq<Reading>)
    ensures Reordered(rs, ss)
    ensures SomeFit(js, rs) ==> FirstFit(js, ss)
  {
    var good, bad := Fitting(js, rs, true), Fitting(js, rs, false);
    ss := good + bad;
    FittingSplits(js, rs);
    if SomeFit(js, rs) {
      forall r | r in bad && r.Keyed? ensures exists s | s in good :: s.Keyed? && s.key == r.key {
        var s :| s in rs && s.Keyed? && s.key == r.key && SeverityFits(js, s);
        assert s in good;
      }
      FittingFirst(js, good, bad);
    }
  }

  lemma FirstFitIsSomeFit(js: seq<Judgement>, rs: seq<Reading>, ss: seq<Reading>)
    requires Reordered(rs, ss)
    ensures FirstFit(js, ss) ==> SomeFit(js, rs)
  {
    ReorderedMembers(rs, ss);
    if FirstFit(js, ss) {
      forall r | r in rs && r.Keyed? ensures exists s | s in rs :: s.Keyed? && s.key == r.key && SeverityFits(js, s) {
        var x :| 0 <= x < |ss| && ss[x] == r;
        var y := EveryKeyHasAFirst(ss, x);
        assert ss[y] in rs && SeverityFits(js, ss[y]);
      }
    }
  }

  /** Some order of the findings passes exactly when every key has a severity that fits. */
  lemma SomeOrderPassesIff(js: seq<Judgement>, rs: seq<Reading>, today: int)
    ensures (exists ss | Reordered(rs, ss) :: ExitCode(js, ss, today) == 0) <==> Excusable(js, rs, today) && SomeFit(js, rs)
  {
    forall ss | Reordered(rs, ss)
      ensures ExitCode(js, ss, today) == 0 <==> Excusable(js, rs, today) && FirstFit(js, ss)
      ensures FirstFit(js, ss) ==> SomeFit(js, rs)
    {
      ReorderedPasses(js, rs, ss, today);
      FirstFitIsSomeFit(js, rs, ss);
    }
    var ss := BestOrder(js, rs);
    assert Reordered(rs, ss);
  }

  /** Two findings of one key with two severities: reporting them in the other order changes the exit code. */
  lemma FindingOrderMatters(k: Key)
    ensures var js, high, critical := [Good(k, HIGH, 0)], Keyed(k, HIGH), Keyed(k, CRITICAL);
            ExitCode(js, [high, critical], 0) == 0 && ExitCode(js, [critical, high], 0) == 1
  {
    var js, high, critical := [Good(k, HIGH, 0)], Keyed(k, HIGH), Keyed(k, CRITICAL);
    assert HIGH[0] != CRITICAL[0];
    ExitExact(js, [high, critical], 0);
    ExitExact(js, [critical, high], 0);
    assert js[0].Good? && js[0].key == k;
    assert [high, critical][0].Keyed?;
    assert !FirstOfKey([high, critical], 1);
    assert FirstOfKey([critical, high], 0);
    assert !SeverityFits(js, critical);
  }

  // ---------------------------------------------------------------- the spelling

  /** The same text up to letter case and white space around it. */
  ghost predicate Respelled(s: string, t: string) {
    exists a, u, b | s == a + u + b :: AllSpace(a) && AllSpace(b) && Lower(u) == Lower(t)
  }

  lemma RespelledNormalizesEqually(s: string, t: string)
    requires Respelled(s, t)
    ensures Lower(Strip(s)) == Lower(Strip(t))
  {
    var a, u, b :| s == a + u + b && AllSpace(a) && AllSpace(b) && Lower(u) == Lower(t);
    NormalizedEqually(a, u, b, t);
  }

  /** Spelling severity and advisory differently, the gate reads the same finding. */
  lemma FindingSpelling(f: Finding, severity: string, advisory: string)
    requires f.severity.Text? && f.advisory.Text? && Respelled(severity, f.severity.text) && Respelled(advisory, f.advisory.text)
    ensures Read(f.(severity := Text(severity), advisory := Text(advisory))) == Read(f)
  {
    RespelledNormalizesEqually(severity, f.severity.text);
    RespelledNormalizesEqually(advisory, f.advisory.text);
  }

  /** Two judgements that the exit code cannot tell apart. */
  predicate Alike(j: Judgement, k: Judgement) {
    j == k || (j.Bad? && k.Bad?)
  }

  /** Spelling severity and advisory differently, the gate judges the same exception. An empty
      severity is missing where a blank one is a wildcard, so neither may turn into the other. */
  lemma ExceptionSpelling(c: Calendar, e: AuditParser.Entry, severity: string, advisory: string)
    requires ADVISORY in e && SEVERITY in e
    requires Respelled(severity, e[SEVERITY]) && Respelled(advisory, e[ADVISORY])
    requires severity == [] <==> e[SEVERITY] == []
    ensures Alike(Judge(c, e[SEVERITY := severity][ADVISORY := advisory]), Judge(c, e))
  {
    RespelledNormalizesEqually(severity, e[SEVERITY]);
    RespelledNormalizesEqually(advisory, e[ADVISORY]);
  }

  /** Exceptions judged alike, and findings read alike, give the same exit code. */
  lemma SpellingIrrelevant(js: seq<Judgement>, ks: seq<Judgement>, rs: seq<Reading>, today: int)
    requires |js| == |ks| && forall i | 0 <= i < |js| :: Alike(js[i], ks[i])
    ensures ExitCode(js, rs, today) == ExitCode(ks, rs, today)
  {
    ExitExact(js, rs, today);
    ExitExact(ks, rs, today);
    if Sound(js) {
      assert js == ks;
    }
    if Sound(ks) {
      assert js == ks;
    }
  }
}
