/** The gate's exit code, said of the entries in the exception list and of the findings in the report. */
module AuditExact {
  import opened Basics
  import opened Strings
  import opened JsonValues
  import AuditParser
  import opened AuditGate
  import opened AuditTheorems

  // ------------------------------------------------------------------ one exception

  /** All five required fields are there and not empty. */
  predicate Complete(e: AuditParser.Entry) {
    && "package" in e && e["package"] != "" && "advisory" in e && e["advisory"] != ""
    && "severity" in e && e["severity"] != "" && "mitigation" in e && e["mitigation"] != ""
    && "expires_on" in e && e["expires_on"] != ""
  }

  /** Its date reads as one, and neither package nor advisory is blank. */
  predicate WellFormed(c: Calendar, e: AuditParser.Entry) {
    Complete(e) && c(e["expires_on"]).Some? && Strip(e["package"]) != "" && Strip(e["advisory"]) != ""
  }

  function EntryKey(e: AuditParser.Entry): Key
    requires Complete(e)
  {
    (Strip(e["package"]), Lower(Strip(e["advisory"])))
  }

  function EntrySeverity(e: AuditParser.Entry): string
    requires Complete(e)
  {
    Lower(Strip(e["severity"]))
  }

  function LastDay(c: Calendar, e: AuditParser.Entry): int
    requires WellFormed(c, e)
  {
    c(e["expires_on"]).value
  }

  lemma FieldsOf(e: AuditParser.Entry)
    ensures Complete(e) <==> && FieldOf(e, PACKAGE) != [] && FieldOf(e, ADVISORY) != [] && FieldOf(e, SEVERITY) != []
                             && FieldOf(e, MITIGATION) != [] && FieldOf(e, EXPIRES_ON) != []
    ensures Complete(e) ==> && FieldOf(e, PACKAGE) == e["package"] && FieldOf(e, ADVISORY) == e["advisory"]
                            && FieldOf(e, SEVERITY) == e["severity"] && FieldOf(e, EXPIRES_ON) == e["expires_on"]
  {
  }

  /** When an exception is good, what it then says, and what is wrong with it otherwise. */
  lemma JudgeMeaning(c: Calendar, e: AuditParser.Entry)
    ensures Judge(c, e).Good? <==> WellFormed(c, e)
    ensures WellFormed(c, e) ==> Judge(c, e) == Good(EntryKey(e), EntrySeverity(e), LastDay(c, e))
    ensures Judge(c, e) == Bad(MissingFields) <==> !Complete(e)
    ensures Judge(c, e) == Bad(InvalidDate) <==> Complete(e) && c(e["expires_on"]).None?
  {
    FieldsOf(e);
  }

  // -------------------------------------------------------------------- one finding

  /** The gate looks at findings that are high or critical, in any spelling, and have a name. */
  predicate Noticed(f: Finding) {
    && f.severity.Text? && (Lower(Strip(f.severity.text)) == "high" || Lower(Strip(f.severity.text)) == "critical")
    && Truthy(f.name)
  }

  /** Package names keep their letter case, advisories do not. */
  function FindingKey(f: Finding): Key {
    (Strip(Str(f.name)), Lower(Strip(Str(f.advisory))))
  }

  function FindingSeverity(f: Finding): string
    requires Noticed(f)
  {
    Lower(Strip(f.severity.text))
  }

  lemma Severities()
    ensures HIGH == "high" && CRITICAL == "critical" && HIGH != [] && CRITICAL != []
  {
  }

  lemma ReadMeaning(f: Finding)
    ensures Read(f).Ignored? <==> !Noticed(f)
    ensures Read(f).Unidentified? <==> Noticed(f) && FindingKey(f).1 == ""
    ensures Noticed(f) && FindingKey(f).1 != "" ==> Read(f) == Keyed(FindingKey(f), FindingSeverity(f))
  {
    Severities();
    assert Lower(Strip([])) == [];
  }

  // ------------------------------------------------------------------ the whole run

  ghost predicate ExceptionsSound(c: Calendar, es: seq<AuditParser.Entry>) {
    && (forall i | 0 <= i < |es| :: WellFormed(c, es[i]))
    && (forall i, j | 0 <= i < j < |es| :: EntryKey(es[i]) != EntryKey(es[j]))
  }

  /** A well-formed exception for the finding that has not expired. */
  predicate Covers(c: Calendar, e: AuditParser.Entry, f: Finding, today: int) {
    WellFormed(c, e) && EntryKey(e) == FindingKey(f) && LastDay(c, e) >= today
  }

  ghost predicate AllCovered(c: Calendar, es: seq<AuditParser.Entry>, fs: seq<Finding>, today: int) {
    forall x | 0 <= x < |fs| && Noticed(fs[x]) ::
      FindingKey(fs[x]).1 != "" && exists i | 0 <= i < |es| :: Covers(c, es[i], fs[x], today)
  }

  /** The first finding of its package and advisory that the gate looks at. */
  predicate FirstNoticed(fs: seq<Finding>, x: nat)
    requires x < |fs|
  {
    Noticed(fs[x]) && forall y | 0 <= y < x && Noticed(fs[y]) :: FindingKey(fs[y]) != FindingKey(fs[x])
  }

  /** An exception for the finding has its severity, or a blank one. */
  predicate Fits(c: Calendar, e: AuditParser.Entry, f: Finding)
    requires Noticed(f)
  {
    WellFormed(c, e) && EntryKey(e) == FindingKey(f) ==> EntrySeverity(e) == "" || EntrySeverity(e) == FindingSeverity(f)
  }

  ghost predicate FirstsFit(c: Calendar, es: seq<AuditParser.Entry>, fs: seq<Finding>) {
    forall x | 0 <= x < |fs| && FirstNoticed(fs, x) :: forall i | 0 <= i < |es| :: Fits(c, es[i], fs[x])
  }

  lemma SoundIff(c: Calendar, es: seq<AuditParser.Entry>)
    ensures Sound(JudgeAll(c, es)) <==> ExceptionsSound(c, es)
  {
    forall i | 0 <= i < |es| ensures JudgeAll(c, es)[i].Good? <==> WellFormed(c, es[i])
                             ensures WellFormed(c, es[i]) ==> JudgeAll(c, es)[i].key == EntryKey(es[i])
    {
      JudgeMeaning(c, es[i]);
    }
  }

  lemma ExcusedIff(c: Calendar, es: seq<AuditParser.Entry>, f: Finding, today: int)
    requires Noticed(f)
    ensures Excused(JudgeAll(c, es), Read(f), today)
       <==> FindingKey(f).1 != "" && exists i | 0 <= i < |es| :: Covers(c, es[i], f, today)
  {
    ReadMeaning(f);
    forall i | 0 <= i < |es|
      ensures Covers(c, es[i], f, today)
         <==> JudgeAll(c, es)[i].Good? && JudgeAll(c, es)[i].key == FindingKey(f) && JudgeAll(c, es)[i].expires >= today
    {
      JudgeMeaning(c, es[i]);
    }
  }

  lemma FitsIff(c: Calendar, es: seq<AuditParser.Entry>, f: Finding)
    requires Noticed(f) && FindingKey(f).1 != ""
    ensures SeverityFits(JudgeAll(c, es), Read(f)) <==> forall i | 0 <= i < |es| :: Fits(c, es[i], f)
  {
    ReadMeaning(f);
    forall i | 0 <= i < |es|
      ensures var j := JudgeAll(c, es)[i];
              Fits(c, es[i], f)
              <==> (j.Good? && j.key == FindingKey(f) ==> j.severity == [] || j.severity == FindingSeverity(f))
    {
      JudgeMeaning(c, es[i]);
    }
  }

  lemma FirstIff(fs: seq<Finding>, x: nat)
    requires x < |fs|
    ensures FirstOfKey(ReadAll(fs), x) <==> FirstNoticed(fs, x) && FindingKey(fs[x]).1 != ""
  {
    ReadMeaning(fs[x]);
    forall y | 0 <= y < x
      ensures ReadAll(fs)[y].Keyed? <==> Noticed(fs[y]) && FindingKey(fs[y]).1 != ""
      ensures ReadAll(fs)[y].Keyed? ==> ReadAll(fs)[y].key == FindingKey(fs[y])
    {
      ReadMeaning(fs[y]);
    }
  }

  lemma CoveredIff(c: Calendar, es: seq<AuditParser.Entry>, fs: seq<Finding>, today: int)
    ensures AllExcused(JudgeAll(c, es), ReadAll(fs), today) <==> AllCovered(c, es, fs, today)
  {
    forall x | 0 <= x < |fs|
      ensures ReadAll(fs)[x].Ignored? <==> !Noticed(fs[x])
      ensures Noticed(fs[x]) ==>
                (Excused(JudgeAll(c, es), ReadAll(fs)[x], today)
                 <==> FindingKey(fs[x]).1 != "" && exists i | 0 <= i < |es| :: Covers(c, es[i], fs[x], today))
    {
      ReadMeaning(fs[x]);
      if Noticed(fs[x]) {
        ExcusedIff(c, es, fs[x], today);
      }
    }
  }

  lemma FirstsIff(c: Calendar, es: seq<AuditParser.Entry>, fs: seq<Finding>, today: int)
    requires AllCovered(c, es, fs, today)
    ensures FirstFit(JudgeAll(c, es), ReadAll(fs)) <==> FirstsFit(c, es, fs)
  {
    forall x | 0 <= x < |fs|
      ensures FirstOfKey(ReadAll(fs), x) <==> FirstNoticed(fs, x)
      ensures FirstNoticed(fs, x) ==>
                (SeverityFits(JudgeAll(c, es), ReadAll(fs)[x]) <==> forall i | 0 <= i < |es| :: Fits(c, es[i], fs[x]))
    {
      FirstIff(fs, x);
      if Noticed(fs[x]) {
        FitsIff(c, es, fs[x]);
      }
    }
  }

  /** What the exit code means for entries and findings: no judgement, no index, no state. */
  lemma EntriesExact(c: Calendar, es: seq<AuditParser.Entry>, fs: seq<Finding>, today: int)
    ensures ExitCode(JudgeAll(c, es), ReadAll(fs), today) == 0
       <==> ExceptionsSound(c, es) && AllCovered(c, es, fs, today) && FirstsFit(c, es, fs)
  {
    ExitExact(JudgeAll(c, es), ReadAll(fs), today);
    SoundIff(c, es);
    CoveredIff(c, es, fs, today);
    if AllCovered(c, es, fs, today) {
      FirstsIff(c, es, fs, today);
    }
  }

  /** Every title that a vulnerability adds to is text, if it is anything. */
  predicate TitlesAreTexts(v: Vulnerability) {
    forall via | via in ViaItems(v.via) :: Truthy(TitleOf(via)) ==> TitleOf(via).Text?
  }

  lemma TitlesJoinIff(v: Vulnerability)
    ensures TitlesJoin(v) <==> TitlesAreTexts(v)
  {
    assert forall i | 0 <= i < |ViaItems(v.via)| :: ViaItems(v.via)[i] in ViaItems(v.via);
  }

  /**
   * The program exits with 0 exactly when no line of the exceptions is malformed, the titles of every vulnerability
   * join, every severity it reads is text or false, every exception has its five fields, a date, a package and an
   * advisory, no two have the same key, every high or critical finding has an advisory and an exception that has not
   * expired, and the exception for the first finding of each key has its severity or a blank one.
   */
  lemma GateExact(c: Calendar, lines: seq<string>, report: Report, today: int)
    ensures Gate(c, lines, report, today) == 0
       <==> && (forall raw | raw in lines :: !AuditParser.Malformed(raw))
            && (forall v | v in report.vulnerabilities :: TitlesAreTexts(v))
            && (forall f | f in Findings(report) :: Truthy(f.severity) ==> f.severity.Text?)
            && AuditParser.Parse(lines).Ok?
            && var es := AuditParser.Parse(lines).value;
            && ExceptionsSound(c, es) && AllCovered(c, es, Findings(report), today) && FirstsFit(c, es, Findings(report))
  {
    AuditParser.ParseFailsIff(AuditParser.Parser([], None), lines);
    UnjoinedIff(report.vulnerabilities);
    forall v | v in report.vulnerabilities ensures TitlesJoin(v) <==> TitlesAreTexts(v) {
      TitlesJoinIff(v);
    }
    if AuditParser.Parse(lines).Ok? {
      EntriesExact(c, AuditParser.Parse(lines).value, Findings(report), today);
    }
  }
}
