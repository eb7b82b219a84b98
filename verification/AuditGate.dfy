/** The gate: index the exceptions, walk the findings once per key, and decide the exit code. */
module AuditGate {
  import opened Basics
  import opened Strings
  import opened JsonValues
  import opened AuditParser

  // ------------------------------------------------------------ audit findings

  datatype Finding = Finding(name: Scalar, severity: Scalar, advisory: Scalar)

  datatype Advisory = Advisory(moduleName: Scalar, name: Scalar, severity: Scalar, githubId: Scalar, url: Scalar,
                               cves: seq<Scalar>, id: Scalar, title: Scalar, advisory: Scalar, overview: Scalar)

  datatype Via =
    | ViaObject(githubId: Scalar, url: Scalar, source: Scalar, title: Scalar, name: Scalar, advisory: Scalar)
    | ViaText(text: string)
    | ViaOther

  datatype Vias = Several(items: seq<Via>) | Single(text: string) | NoVias

  datatype Vulnerability = Vulnerability(name: string, severity: Scalar, via: Vias)

  datatype Report = Report(advisories: seq<Advisory>, vulnerabilities: seq<Vulnerability>)

  /** The most stable identifier comes first. */
  function PickAdvisoryId(a: Advisory): Scalar {
    Or(a.githubId, Or(a.url, Or(if a.cves == [] then Absent else a.cves[0],
       Or(if a.id.Absent? then Absent else Text(Str(a.id)), Or(a.title, Or(a.advisory, a.overview))))))
  }

  function AdvisoryFinding(a: Advisory): Finding {
    Finding(Or(a.moduleName, a.name), a.severity, PickAdvisoryId(a))
  }

  function AdvisoryFindings(advisories: seq<Advisory>): seq<Finding> {
    seq(|advisories|, i requires 0 <= i < |advisories| => AdvisoryFinding(advisories[i]))
  }

  /** The advisory that one `via` item names. */
  function ViaId(v: Via): Scalar {
    match v
    case ViaObject(githubId, url, source, title, name, _) => Or(githubId, Or(url, Or(source, Or(title, name))))
    case ViaText(text) => Text(text)
    case ViaOther => Absent
  }

  function ViaItems(v: Vias): seq<Via> {
    match v
    case Several(items) => items
    case Single(text) => [ViaText(text)]
    case NoVias => []
  }

  /** One finding for each advisory that is named; nothing for a vulnerability that names none. */
  function ViaFindings(v: Vulnerability, items: seq<Via>): seq<Finding> {
    if items == [] then []
    else
      (if Truthy(ViaId(items[0])) then [Finding(Text(v.name), v.severity, ViaId(items[0]))] else [])
      + ViaFindings(v, items[1..])
  }

  function VulnerabilityFindings(vs: seq<Vulnerability>): seq<Finding> {
    if vs == [] then [] else ViaFindings(vs[0], ViaItems(vs[0].via)) + VulnerabilityFindings(vs[1..])
  }

  function Findings(r: Report): seq<Finding> {
    AdvisoryFindings(r.advisories) + VulnerabilityFindings(r.vulnerabilities)
  }

  /** The text that one `via` item adds to the title of its vulnerability. */
  function TitleOf(v: Via): Scalar {
    match v
    case ViaObject(_, url, source, title, _, advisory) => Or(title, Or(url, Or(advisory, source)))
    case ViaText(text) => Text(text)
    case ViaOther => Absent
  }

  /** `"; ".join` takes texts only; what is false was left out before. */
  predicate Joinable(s: Scalar) {
    Truthy(s) ==> s.Text?
  }

  predicate TitlesJoin(v: Vulnerability) {
    forall i | 0 <= i < |ViaItems(v.via)| :: Joinable(TitleOf(ViaItems(v.via)[i]))
  }

  datatype ReportError = TitleNotText(name: string) | SeverityNotText(severity: Scalar)

  /** The first vulnerability whose titles do not join. */
  function FirstUnjoined(vs: seq<Vulnerability>): Option<string> {
    if vs == [] then None else if !TitlesJoin(vs[0]) then Some(vs[0].name) else FirstUnjoined(vs[1..])
  }

  /** What `iter_vulns` yields, or the error that it raises on the way. */
  function Iterate(r: Report): Result<seq<Finding>, ReportError> {
    match FirstUnjoined(r.vulnerabilities)
    case None => Ok(Findings(r))
    case Some(name) => Err(TitleNotText(name))
  }

  lemma {:induction false} UnjoinedIff(vs: seq<Vulnerability>)
    ensures FirstUnjoined(vs).None? <==> forall v | v in vs :: TitlesJoin(v)
  {
    if vs != [] {
      UnjoinedIff(vs[1..]);
      assert forall v :: v in vs <==> v == vs[0] || v in vs[1..];
    }
  }

  /** One entry of the `vulnerabilities` section: advisories and titles are gathered, the titles joined, the advisories reported. */
  method CollectVia(v: Vulnerability, before: seq<Finding>) returns (found: Result<seq<Finding>, ReportError>)
    ensures found == if TitlesJoin(v) then Ok(before + ViaFindings(v, ViaItems(v.via))) else Err(TitleNotText(v.name))
  {
    var fs, joins := before, true;
    var items := ViaItems(v.via);
    for i := 0 to |items|
      invariant fs + ViaFindings(v, items[i..]) == before + ViaFindings(v, items)
      invariant joins <==> forall j | 0 <= j < i :: Joinable(TitleOf(items[j]))
    {
      assert items[i..][1..] == items[i + 1..];
      var id, title := ViaId(items[i]), TitleOf(items[i]);
      if Truthy(id) {
        fs := fs + [Finding(Text(v.name), v.severity, id)];
      }
      if Truthy(title) && !title.Text? {
        joins := false;
      }
    }
    assert items[|items|..] == [] && fs + [] == fs;
    found := if joins then Ok(fs) else Err(TitleNotText(v.name));
  }

  method IterAdvisories(advisories: seq<Advisory>) returns (found: seq<Finding>)
    ensures found == AdvisoryFindings(advisories)
  {
    found := [];
    for i := 0 to |advisories|
      invariant found == AdvisoryFindings(advisories)[..i]
    {
      found := found + [AdvisoryFinding(advisories[i])];
    }
  }

  lemma NextVulnerability(vs: seq<Vulnerability>, i: nat, fs: seq<Finding>)
    requires i < |vs|
    ensures fs + VulnerabilityFindings(vs[i..]) == fs + ViaFindings(vs[i], ViaItems(vs[i].via)) + VulnerabilityFindings(vs[i + 1..])
    ensures FirstUnjoined(vs[i..]) == if TitlesJoin(vs[i]) then FirstUnjoined(vs[i + 1..]) else Some(vs[i].name)
  {
    assert vs[i..][1..] == vs[i + 1..];
    Reassociated(fs, ViaFindings(vs[i], ViaItems(vs[i].via)), VulnerabilityFindings(vs[i + 1..]));
  }

  /** `iter_vulns`: both shapes of the report, in order. */
  method IterVulnerabilities(r: Report) returns (found: Result<seq<Finding>, ReportError>)
    ensures found == Iterate(r)
    ensures found.Err? <==> exists v | v in r.vulnerabilities :: !TitlesJoin(v)
  {
    UnjoinedIff(r.vulnerabilities);
    var fs := IterAdvisories(r.advisories);
    for i := 0 to |r.vulnerabilities|
      invariant fs + VulnerabilityFindings(r.vulnerabilities[i..]) == Findings(r)
      invariant FirstUnjoined(r.vulnerabilities) == FirstUnjoined(r.vulnerabilities[i..])
    {
      NextVulnerability(r.vulnerabilities, i, fs);
      var next := CollectVia(r.vulnerabilities[i], fs);
      if next.Err? {
        return Err(next.error);
      }
      fs := next.value;
    }
    assert r.vulnerabilities[|r.vulnerabilities|..] == [] && fs + [] == fs;
    found := Ok(fs);
  }

  /** A vulnerability is reported at all exactly when one of its `via` items names an advisory. */
  lemma {:induction false} ReportedIff(v: Vulnerability, items: seq<Via>)
    ensures ViaFindings(v, items) != [] <==> exists i | 0 <= i < |items| :: Truthy(ViaId(items[i]))
    ensures forall f | f in ViaFindings(v, items) :: f.name == Text(v.name) && f.severity == v.severity && Truthy(f.advisory)
  {
    if items != [] {
      ReportedIff(v, items[1..]);
      assert forall i | 0 < i < |items| :: items[i] == items[1..][i - 1];
      assert forall i | 0 <= i < |items| - 1 :: items[1..][i] == items[i + 1];
    }
  }

  // ------------------------------------------------------------- normalization

  const HIGH: string := ['h', 'i', 'g', 'h']
  const CRITICAL: string := ['c', 'r', 'i', 't', 'i', 'c', 'a', 'l']

  function NormalizeSeverity(s: string): string { Lower(Strip(s)) }

  /** `severity or ""`; a true severity that is not text cannot be stripped. */
  function SeverityText(s: Scalar): string {
    if s.Text? then s.text else []
  }

  predicate Spelled(f: Finding) {
    Joinable(f.severity)
  }

  function NormalizePackage(s: Scalar): string { Strip(Str(s)) }

  function NormalizeAdvisory(s: Scalar): string { Lower(Strip(Str(s))) }

  type Key = (string, string)

  /** What the gate makes of a finding: nothing, a complaint, or a key to look up. */
  datatype Reading = Ignored | Unidentified(name: Scalar, severity: string) | Keyed(key: Key, severity: string)

  function Read(f: Finding): Reading {
    var severity := NormalizeSeverity(SeverityText(f.severity));
    if (severity != HIGH && severity != CRITICAL) || !Truthy(f.name) then Ignored
    else if NormalizeAdvisory(f.advisory) == [] then Unidentified(f.name, severity)
    else Keyed((NormalizePackage(f.name), NormalizeAdvisory(f.advisory)), severity)
  }

  function ReadAll(fs: seq<Finding>): seq<Reading> {
    seq(|fs|, i requires 0 <= i < |fs| => Read(fs[i]))
  }

  // ---------------------------------------------------------- judging exceptions

  const PACKAGE: string := "package"
  const ADVISORY: string := "advisory"
  const SEVERITY: string := "severity"
  const MITIGATION: string := "mitigation"
  const EXPIRES_ON: string := "expires_on"

  /** `exc.get(field)`, where missing and empty are equally false. */
  function FieldOf(e: Entry, field: string): string {
    if field in e then e[field] else []
  }

  /** How a date string reads: `date.fromisoformat`, with days numbered. */
  type Calendar = string -> Option<int>

  datatype ExceptionError = MissingFields | InvalidDate | MissingKey | Duplicate

  datatype Judgement = Bad(error: ExceptionError) | Good(key: Key, severity: string, expires: int)

  function Judge(c: Calendar, e: Entry): Judgement {
    if FieldOf(e, PACKAGE) == [] || FieldOf(e, ADVISORY) == [] || FieldOf(e, SEVERITY) == []
       || FieldOf(e, MITIGATION) == [] || FieldOf(e, EXPIRES_ON) == [] then Bad(MissingFields)
    else
      var package, advisory := NormalizePackage(Text(FieldOf(e, PACKAGE))), NormalizeAdvisory(Text(FieldOf(e, ADVISORY)));
      match c(FieldOf(e, EXPIRES_ON))
      case None => Bad(InvalidDate)
      case Some(day) =>
        if package == [] || advisory == [] then Bad(MissingKey)
        else Good((package, advisory), NormalizeSeverity(FieldOf(e, SEVERITY)), day)
  }

  function JudgeAll(c: Calendar, es: seq<Entry>): seq<Judgement> {
    seq(|es|, i requires 0 <= i < |es| => Judge(c, es[i]))
  }

  // ------------------------------------------------------------------ the index

  datatype Indexed = Indexed(severity: string, expires: int)

  datatype IndexState = IndexState(index: map<Key, Indexed>, errors: seq<ExceptionError>)

  function AddException(s: IndexState, j: Judgement): IndexState {
    match j
    case Bad(error) => s.(errors := s.errors + [error])
    case Good(key, severity, expires) =>
      if key in s.index then s.(errors := s.errors + [Duplicate])
      else s.(index := s.index[key := Indexed(severity, expires)])
  }

  function IndexUpTo(js: seq<Judgement>, n: nat): IndexState
    requires n <= |js|
  {
    if n == 0 then IndexState(map[], []) else AddException(IndexUpTo(js, n - 1), js[n - 1])
  }

  method IndexExceptions(c: Calendar, es: seq<Entry>) returns (index: map<Key, Indexed>, errors: seq<ExceptionError>)
    ensures IndexState(index, errors) == IndexUpTo(JudgeAll(c, es), |es|)
  {
    index, errors := map[], [];
    for i := 0 to |es|
      invariant IndexState(index, errors) == IndexUpTo(JudgeAll(c, es), i)
    {
      match Judge(c, es[i]) {
        case Bad(error) => errors := errors + [error];
        case Good(key, severity, expires) =>
          if key in index {
            errors := errors + [Duplicate];
          } else {
            index := index[key := Indexed(severity, expires)];
          }
      }
    }
  }

  // ------------------------------------------------------------------- the gate

  datatype GateState = GateState(seen: set<Key>, errors: seq<Reading>, missing: seq<Reading>, expired: seq<Reading>)

  function Visit(index: map<Key, Indexed>, today: int, s: GateState, r: Reading): GateState {
    match r
    case Ignored => s
    case Unidentified(_, _) => s.(errors := s.errors + [r])
    case Keyed(key, severity) =>
      if key in s.seen then s
      else
        var s := s.(seen := s.seen + {key});
        if key !in index then s.(missing := s.missing + [r])
        else
          var s := if index[key].severity != [] && index[key].severity != severity then s.(errors := s.errors + [r]) else s;
          if index[key].expires < today then s.(expired := s.expired + [r]) else s
  }

  function VisitUpTo(index: map<Key, Indexed>, today: int, rs: seq<Reading>, n: nat): GateState
    requires n <= |rs|
  {
    if n == 0 then GateState({}, [], [], []) else Visit(index, today, VisitUpTo(index, today, rs, n - 1), rs[n - 1])
  }

  predicate Clean(s: GateState) {
    s.errors == [] && s.missing == [] && s.expired == []
  }

  /** The exit code once every exception is judged and every finding is read. */
  function ExitCode(js: seq<Judgement>, rs: seq<Reading>, today: int): nat {
    var built := IndexUpTo(js, |js|);
    if built.errors == [] && Clean(VisitUpTo(built.index, today, rs, |rs|)) then 0 else 1
  }

  /** The body of the loop over the findings. */
  method VisitFinding(index: map<Key, Indexed>, today: int, f: Finding, s: GateState) returns (t: GateState)
    requires Spelled(f)
    ensures t == Visit(index, today, s, Read(f))
  {
    t := s;
    var severity := NormalizeSeverity(SeverityText(f.severity));
    if (severity != HIGH && severity != CRITICAL) || !Truthy(f.name) {
      return;
    }
    var advisory := NormalizeAdvisory(f.advisory);
    if advisory == [] {
      t := t.(errors := t.errors + [Unidentified(f.name, severity)]);
      return;
    }
    var key := (NormalizePackage(f.name), advisory);
    if key in t.seen {
      return;
    }
    t := t.(seen := t.seen + {key});
    if key !in index {
      t := t.(missing := t.missing + [Keyed(key, severity)]);
      return;
    }
    if index[key].severity != [] && index[key].severity != severity {
      t := t.(errors := t.errors + [Keyed(key, severity)]);
    }
    if index[key].expires < today {
      t := t.(expired := t.expired + [Keyed(key, severity)]);
    }
  }

  /** The loop over the findings; a severity that is neither text nor false ends it with an error. */
  method WalkFindings(index: map<Key, Indexed>, today: int, findings: seq<Finding>) returns (s: Result<GateState, ReportError>)
    ensures s.Err? <==> exists f | f in findings :: !Spelled(f)
    ensures s.Ok? ==> s.value == VisitUpTo(index, today, ReadAll(findings), |findings|)
  {
    var t := GateState({}, [], [], []);
    for i := 0 to |findings|
      invariant forall j | 0 <= j < i :: Spelled(findings[j])
      invariant t == VisitUpTo(index, today, ReadAll(findings), i)
    {
      if !Spelled(findings[i]) {
        return Err(SeverityNotText(findings[i].severity));
      }
      t := VisitFinding(index, today, findings[i], t);
    }
    s := Ok(t);
  }

  /** The program's exit code; whatever raises ends it with 1. */
  function Gate(c: Calendar, lines: seq<string>, report: Report, today: int): nat {
    if Parse(lines).Err? || Iterate(report).Err? || exists f | f in Findings(report) :: !Spelled(f) then 1
    else ExitCode(JudgeAll(c, Parse(lines).value), ReadAll(Findings(report)), today)
  }

  /** `main`, with the file contents, the calendar and today's date as inputs. */
  method RunGate(c: Calendar, lines: seq<string>, report: Report, today: int) returns (code: nat)
    ensures code == Gate(c, lines, report, today)
  {
    var parsed := ParseExceptions(lines);
    if parsed.Err? {
      return 1;
    }
    var index, problems := IndexExceptions(c, parsed.value);
    var findings := IterVulnerabilities(report);
    if findings.Err? {
      return 1;
    }
    var walked := WalkFindings(index, today, findings.value);
    if walked.Err? {
      return 1;
    }
    code := if problems != [] || !Clean(walked.value) then 1 else 0;
  }

  // ------------------------------------------------------- what the index holds

  predicate KeysDistinctUpTo(js: seq<Judgement>, n: nat)
    requires n <= |js|
  {
    forall i, j | 0 <= i < j < n && js[i].Good? && js[j].Good? :: js[i].key != js[j].key
  }

  lemma {:induction false} IndexClean(js: seq<Judgement>, n: nat)
    requires n <= |js|
    ensures IndexUpTo(js, n).errors == [] <==> (forall i | 0 <= i < n :: js[i].Good?) && KeysDistinctUpTo(js, n)
    ensures forall k :: k in IndexUpTo(js, n).index <==> exists i | 0 <= i < n :: js[i].Good? && js[i].key == k
  {
    if n > 0 {
      IndexClean(js, n - 1);
      var s := IndexUpTo(js, n - 1);
      assert IndexUpTo(js, n).errors == [] ==> s.errors == [];
    }
  }

  /** The index holds, for every key, what the first good exception of that key says. */
  lemma {:induction false} IndexFirst(js: seq<Judgement>, n: nat, i: nat)
    requires i < n <= |js| && js[i].Good?
    requires forall j | 0 <= j < i && js[j].Good? :: js[j].key != js[i].key
    ensures js[i].key in IndexUpTo(js, n).index
    ensures IndexUpTo(js, n).index[js[i].key] == Indexed(js[i].severity, js[i].expires)
  {
    IndexClean(js, n - 1);
    if i < n - 1 {
      IndexFirst(js, n - 1, i);
    }
  }

  // ---------------------------------------------------- what the gate objects to

  predicate KeyAmong(rs: seq<Reading>, n: nat, k: Key)
    requires n <= |rs|
  {
    exists x | 0 <= x < n :: rs[x].Keyed? && rs[x].key == k
  }

  /** The first finding of its key: the only one whose severity is compared. */
  predicate FirstOfKey(rs: seq<Reading>, x: nat)
    requires x < |rs|
  {
    rs[x].Keyed? && !KeyAmong(rs, x, rs[x].key)
  }

  /** What the gate wants of the first finding of a key. */
  predicate Accepted(index: map<Key, Indexed>, today: int, r: Reading)
    requires r.Keyed?
  {
    && r.key in index
    && index[r.key].expires >= today
    && (index[r.key].severity == [] || index[r.key].severity == r.severity)
  }

  lemma {:induction false} SeenIsKeyAmong(index: map<Key, Indexed>, today: int, rs: seq<Reading>, n: nat, k: Key)
    requires n <= |rs|
    ensures k in VisitUpTo(index, today, rs, n).seen <==> KeyAmong(rs, n, k)
  {
    if n > 0 {
      SeenIsKeyAmong(index, today, rs, n - 1, k);
    }
  }

  ghost predicate AllAccepted(index: map<Key, Indexed>, today: int, rs: seq<Reading>, n: nat)
    requires n <= |rs|
  {
    && (forall x | 0 <= x < n :: !rs[x].Unidentified?)
    && (forall x | 0 <= x < n && FirstOfKey(rs, x) :: Accepted(index, today, rs[x]))
  }

  /** One more finding leaves nothing to object to. */
  lemma CleanStep(index: map<Key, Indexed>, today: int, s: GateState, r: Reading)
    ensures Clean(Visit(index, today, s, r))
       <==> Clean(s) && (r.Ignored? || (r.Keyed? && (r.key in s.seen || Accepted(index, today, r))))
  {
  }

  lemma AllAcceptedStep(index: map<Key, Indexed>, today: int, rs: seq<Reading>, n: nat)
    requires 0 < n <= |rs|
    ensures AllAccepted(index, today, rs, n)
       <==> && AllAccepted(index, today, rs, n - 1) && !rs[n - 1].Unidentified?
            && (FirstOfKey(rs, n - 1) ==> Accepted(index, today, rs[n - 1]))
  {
  }

  lemma {:induction false} VisitClean(index: map<Key, Indexed>, today: int, rs: seq<Reading>, n: nat)
    requires n <= |rs|
    ensures Clean(VisitUpTo(index, today, rs, n)) <==> AllAccepted(index, today, rs, n)
  {
    if n > 0 {
      VisitClean(index, today, rs, n - 1);
      AllAcceptedStep(index, today, rs, n);
      CleanStep(index, today, VisitUpTo(index, today, rs, n - 1), rs[n - 1]);
      if rs[n - 1].Keyed? {
        SeenIsKeyAmong(index, today, rs, n - 1, rs[n - 1].key);
      }
    }
  }
}
