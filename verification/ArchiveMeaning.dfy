/** What is grouped under an id, said without the fold; and what the order of the lines changes. */
module ArchiveMeaning {
  import opened Basics
  import opened Strings
  import opened JsonValues
  import opened StringOrder
  import opened ArchiveEvents

  predicate Carries(e: Entry, id: string) {
    e.reading.Grouped? && e.reading.id == id
  }

  predicate Bears(e: Entry, id: string, kind: Kind) {
    Carries(e, id) && e.reading.kind == kind
  }

  // ---------------------------------------------------------- entries and lines

  lemma {:induction false} EntryInLines(d: Decoder, files: seq<File>, e: Entry) returns (f: File, n: nat)
    requires e in Entries(d, files)
    ensures f in files && n < |f.lines| && e == Entry(f.path, n + 1, ReadLine(d, f.lines[n]))
  {
    var init, last := files[..|files| - 1], files[|files| - 1];
    if e in FileEntries(d, last) {
      f := last;
      n :| 0 <= n < |last.lines| && FileEntries(d, last)[n] == e;
    } else {
      f, n := EntryInLines(d, init, e);
    }
  }

  lemma {:induction false} LineInEntries(d: Decoder, files: seq<File>, f: File, n: nat)
    requires f in files && n < |f.lines|
    ensures Entry(f.path, n + 1, ReadLine(d, f.lines[n])) in Entries(d, files)
  {
    var init, last := files[..|files| - 1], files[|files| - 1];
    if f == last {
      assert FileEntries(d, last)[n] in FileEntries(d, last);
    } else {
      assert files == init + [last];
      LineInEntries(d, init, f, n);
    }
  }

  lemma {:induction false} WarnedEntries(es: seq<Entry>, w: Warning)
    ensures w in Load(es).warnings <==> Entry(w.path, w.number, Warned(w.problem)) in es
  {
    if es != [] {
      WarnedEntries(es[..|es| - 1], w);
      assert es == es[..|es| - 1] + [es[|es| - 1]];
    }
  }

  /** The line calls for the warning. */
  predicate Calls(d: Decoder, raw: string, problem: Problem) {
    match problem
    case InvalidJson => Strip(raw) != "" && d(Strip(raw)).None?
    case Unsupported => Unusable(d, raw)
  }

  lemma CallsIff(d: Decoder, raw: string, problem: Problem)
    ensures ReadLine(d, raw) == Warned(problem) <==> Calls(d, raw, problem)
  {
    LineMeaning(d, raw);
  }

  /** Lines are counted from one. */
  predicate Deserved(d: Decoder, f: File, w: Warning) {
    f.path == w.path && 1 <= w.number <= |f.lines| && Calls(d, f.lines[w.number - 1], w.problem)
  }

  lemma WarnedDeserved(d: Decoder, files: seq<File>, w: Warning) returns (f: File)
    requires Entry(w.path, w.number, Warned(w.problem)) in Entries(d, files)
    ensures f in files && Deserved(d, f, w)
  {
    var n;
    f, n := EntryInLines(d, files, Entry(w.path, w.number, Warned(w.problem)));
    CallsIff(d, f.lines[n], w.problem);
  }

  lemma DeservedWarned(d: Decoder, files: seq<File>, w: Warning, f: File)
    requires f in files && Deserved(d, f, w)
    ensures Entry(w.path, w.number, Warned(w.problem)) in Entries(d, files)
  {
    CallsIff(d, f.lines[w.number - 1], w.problem);
    LineInEntries(d, files, f, w.number - 1);
  }

  /** A warning is given for exactly the lines that are no JSON object, or one without an id or with another type. */
  lemma WarningsMeaning(d: Decoder, files: seq<File>, w: Warning)
    ensures w in Load(Entries(d, files)).warnings <==> exists f | f in files :: Deserved(d, f, w)
  {
    WarnedEntries(Entries(d, files), w);
    if Entry(w.path, w.number, Warned(w.problem)) in Entries(d, files) {
      var f := WarnedDeserved(d, files, w);
    }
    if f :| f in files && Deserved(d, f, w) {
      DeservedWarned(d, files, w, f);
    }
  }

  // ------------------------------------------------------- the items, id by id

  function EventsOf(es: seq<Entry>, id: string): seq<Event> {
    if es == [] then []
    else
      var rest := EventsOf(es[..|es| - 1], id);
      if Carries(es[|es| - 1], id) then rest + [es[|es| - 1].reading.event] else rest
  }

  function PathsOf(es: seq<Entry>, id: string): seq<string> {
    if es == [] then []
    else
      var rest := PathsOf(es[..|es| - 1], id);
      if Carries(es[|es| - 1], id) then AppendNew(rest, es[|es| - 1].path) else rest
  }

  /** The source files of an id: those that carry it, each once. */
  lemma {:induction false} PathsMeaning(es: seq<Entry>, id: string)
    ensures NoDuplicates(PathsOf(es, id))
    ensures forall path :: path in PathsOf(es, id) <==> exists e | e in es :: Carries(e, id) && e.path == path
  {
    if es != [] {
      PathsMeaning(es[..|es| - 1], id);
      assert es == es[..|es| - 1] + [es[|es| - 1]];
    }
  }

  /** No event of the same id and type is later, and none after it is as late. */
  predicate Final(es: seq<Entry>, id: string, kind: Kind, i: nat)
    requires i < |es|
  {
    && Bears(es[i], id, kind)
    && forall j | 0 <= j < |es| && Bears(es[j], id, kind) ::
         LexLe(Stamp(es[j].reading.event), Stamp(es[i].reading.event))
         && (j > i ==> Stamp(es[j].reading.event) != Stamp(es[i].reading.event))
  }

  predicate Borne(es: seq<Entry>, id: string, kind: Kind) {
    exists i | 0 <= i < |es| :: Bears(es[i], id, kind)
  }

  function Chosen(es: seq<Entry>, id: string, kind: Kind): Option<Event> {
    Of(Lookup(Load(es), id), kind)
  }

  lemma {:induction false} ChosenStep(es: seq<Entry>, id: string, kind: Kind)
    requires es != []
    ensures var init, last := es[..|es| - 1], es[|es| - 1];
            Chosen(es, id, kind)
            == if Bears(last, id, kind) then Later(Chosen(init, id, kind), Some(last.reading.event)) else Chosen(init, id, kind)
  {
  }

  lemma FinalStep(es: seq<Entry>, id: string, kind: Kind, i: nat)
    requires i < |es| - 1 && Final(es[..|es| - 1], id, kind, i)
    requires Bears(es[|es| - 1], id, kind) ==> !LexLe(Stamp(es[i].reading.event), Stamp(es[|es| - 1].reading.event))
    ensures Final(es, id, kind, i)
  {
    var init, last := es[..|es| - 1], es[|es| - 1];
    assert forall j | 0 <= j < |init| :: es[j] == init[j];
    if last.reading.Grouped? {
      LexTotal(Stamp(es[i].reading.event), Stamp(last.reading.event));
      LexReflexive(Stamp(es[i].reading.event));
    }
  }

  lemma FinalLast(es: seq<Entry>, id: string, kind: Kind, i: nat)
    requires i < |es| - 1 && Final(es[..|es| - 1], id, kind, i) && Bears(es[|es| - 1], id, kind)
    requires LexLe(Stamp(es[i].reading.event), Stamp(es[|es| - 1].reading.event))
    ensures Final(es, id, kind, |es| - 1)
  {
    var init, stamp := es[..|es| - 1], Stamp(es[|es| - 1].reading.event);
    forall j | 0 <= j < |es| && Bears(es[j], id, kind) ensures LexLe(Stamp(es[j].reading.event), stamp) {
      if j < |es| - 1 {
        assert es[j] == init[j];
        LexTransitive(Stamp(es[j].reading.event), Stamp(es[i].reading.event), stamp);
      } else {
        LexReflexive(stamp);
      }
    }
  }

  /** What is kept is the last of the events with the greatest timestamp; nothing, if there are none. */
  lemma {:induction false} ChosenIsFinal(es: seq<Entry>, id: string, kind: Kind) returns (i: nat)
    ensures Chosen(es, id, kind).Some? <==> Borne(es, id, kind)
    ensures Borne(es, id, kind) ==> i < |es| && Final(es, id, kind, i) && Chosen(es, id, kind) == Some(es[i].reading.event)
  {
    i := 0;
    if es != [] {
      var init, last := es[..|es| - 1], es[|es| - 1];
      ChosenStep(es, id, kind);
      i := ChosenIsFinal(init, id, kind);
      assert Borne(es, id, kind) <==> Borne(init, id, kind) || Bears(last, id, kind);
      if !Borne(init, id, kind) {
        if Bears(last, id, kind) {
          LexReflexive(Stamp(last.reading.event));
          assert forall j | 0 <= j < |init| :: es[j] == init[j];
        }
        i := |es| - 1;
      } else if Bears(last, id, kind) && LexLe(Stamp(es[i].reading.event), Stamp(last.reading.event)) {
        FinalLast(es, id, kind, i);
        i := |es| - 1;
      } else {
        FinalStep(es, id, kind, i);
      }
    }
  }

  /** There is only one such event. */
  lemma FinalUnique(es: seq<Entry>, id: string, kind: Kind, i: nat, j: nat)
    requires i < |es| && j < |es| && Final(es, id, kind, i) && Final(es, id, kind, j)
    ensures i == j
  {
    LexAntisymmetric(Stamp(es[i].reading.event), Stamp(es[j].reading.event));
  }

  /** Each group holds exactly the events of its id, in order, and the files they came from. */
  lemma {:induction false} GroupHolds(es: seq<Entry>, id: string)
    ensures id in Load(es).items <==> Borne(es, id, Request) || Borne(es, id, Response)
    ensures Lookup(Load(es), id).events == EventsOf(es, id)
    ensures Lookup(Load(es), id).sources == PathsOf(es, id)
  {
    if es != [] {
      var init, last := es[..|es| - 1], es[|es| - 1];
      GroupHolds(init, id);
      assert forall kind :: Borne(es, id, kind) <==> Borne(init, id, kind) || Bears(last, id, kind);
      assert Carries(last, id) ==> Bears(last, id, Request) || Bears(last, id, Response);
    }
  }

  // --------------------------------------------------------------- conservation

  function Total(a: Archive, n: nat): nat
    requires n <= |a.order|
  {
    if n == 0 then 0 else Total(a, n - 1) + |Lookup(a, a.order[n - 1]).events|
  }

  function NonBlank(es: seq<Entry>): nat {
    if es == [] then 0 else NonBlank(es[..|es| - 1]) + if es[|es| - 1].reading.Skipped? then 0 else 1
  }

  lemma {:induction false} TotalStep(a: Archive, e: Entry, n: nat)
    requires e.reading.Grouped? && NoDuplicates(a.order) && n <= |a.order|
    ensures n <= |Step(a, e).order|
    ensures Total(Step(a, e), n) == Total(a, n) + if e.reading.id in a.order[..n] then 1 else 0
  {
    if n > 0 {
      TotalStep(a, e, n - 1);
      assert a.order[..n] == a.order[..n - 1] + [a.order[n - 1]];
      assert Step(a, e).order[n - 1] == a.order[n - 1];
    }
  }

  /** Nothing is lost: every line that is not blank is grouped once or warned about once. */
  lemma {:induction false} Conservation(es: seq<Entry>)
    ensures Total(Load(es), |Load(es).order|) + |Load(es).warnings| == NonBlank(es)
  {
    if es != [] {
      var init, last := es[..|es| - 1], es[|es| - 1];
      var a := Load(init);
      Conservation(init);
      LoadKeys(init);
      match last.reading
      case Grouped(id, _, _) =>
        TotalStep(a, last, |a.order|);
        assert a.order[..|a.order|] == a.order;
      case Warned(_) => TotalUnwarned(a, Load(es), |a.order|);
      case Skipped =>
    }
  }

  lemma {:induction false} TotalUnwarned(a: Archive, b: Archive, n: nat)
    requires a.order == b.order && a.items == b.items && n <= |a.order|
    ensures Total(a, n) == Total(b, n)
  {
    if n > 0 {
      TotalUnwarned(a, b, n - 1);
    }
  }

  function NonBlankLines(lines: seq<string>): nat {
    if lines == [] then 0 else NonBlankLines(lines[..|lines| - 1]) + if Strip(lines[|lines| - 1]) == [] then 0 else 1
  }

  function AllNonBlank(files: seq<File>): nat {
    if files == [] then 0 else AllNonBlank(files[..|files| - 1]) + NonBlankLines(files[|files| - 1].lines)
  }

  lemma {:induction false} NonBlankAppend(es: seq<Entry>, fs: seq<Entry>)
    ensures NonBlank(es + fs) == NonBlank(es) + NonBlank(fs)
  {
    if fs == [] {
      assert es + fs == es;
    } else {
      NonBlankAppend(es, fs[..|fs| - 1]);
      assert (es + fs)[..|es + fs| - 1] == es + fs[..|fs| - 1];
    }
  }

  lemma {:induction false} NonBlankFile(d: Decoder, f: File)
    ensures NonBlank(FileEntries(d, f)) == NonBlankLines(f.lines)
    decreases |f.lines|
  {
    if f.lines != [] {
      var init := File(f.path, f.lines[..|f.lines| - 1]);
      NonBlankFile(d, init);
      assert FileEntries(d, f)[..|f.lines| - 1] == FileEntries(d, init);
      ReadLineProper(d, f.lines[|f.lines| - 1]);
    }
  }

  lemma {:induction false} NonBlankFiles(d: Decoder, files: seq<File>)
    ensures NonBlank(Entries(d, files)) == AllNonBlank(files)
  {
    if files != [] {
      NonBlankFiles(d, files[..|files| - 1]);
      NonBlankFile(d, files[|files| - 1]);
      NonBlankAppend(Entries(d, files[..|files| - 1]), FileEntries(d, files[|files| - 1]));
    }
  }

  /** For files: the events in all groups and the warnings number the lines that are not blank. */
  lemma FilesConserved(d: Decoder, files: seq<File>)
    ensures var a := Load(Entries(d, files)); Total(a, |a.order|) + |a.warnings| == AllNonBlank(files)
  {
    Conservation(Entries(d, files));
    NonBlankFiles(d, files);
  }

  // ------------------------------------------------------ the order of the lines

  function Readings(es: seq<Entry>): seq<Reading> {
    seq(|es|, i requires 0 <= i < |es| => es[i].reading)
  }

  /** The same lines in another order, in any files. */
  ghost predicate Shuffled(es: seq<Entry>, fs: seq<Entry>) {
    multiset(Readings(es)) == multiset(Readings(fs))
  }

  lemma ShuffledMembers(es: seq<Entry>, fs: seq<Entry>)
    requires Shuffled(es, fs)
    ensures forall r :: r in Readings(es) <==> r in Readings(fs)
  {
    forall r ensures r in Readings(es) <==> r in Readings(fs) {
      assert r in multiset(Readings(es)) <==> r in multiset(Readings(fs));
    }
  }

  lemma BorneMembers(es: seq<Entry>, fs: seq<Entry>, id: string, kind: Kind)
    requires forall r :: r in Readings(es) ==> r in Readings(fs)
    ensures Borne(es, id, kind) ==> Borne(fs, id, kind)
  {
    if i :| 0 <= i < |es| && Bears(es[i], id, kind) {
      assert Readings(es)[i] in Readings(fs);
      var j :| 0 <= j < |Readings(fs)| && Readings(fs)[j] == Readings(es)[i];
      assert Bears(fs[j], id, kind);
    }
  }

  /** Which ids there are, and which of them have a request or a response, is the same in any order. */
  lemma ShuffleKeepsIds(es: seq<Entry>, fs: seq<Entry>, id: string)
    requires Shuffled(es, fs)
    ensures id in Load(es).items <==> id in Load(fs).items
    ensures forall kind :: Chosen(es, id, kind).Some? <==> Chosen(fs, id, kind).Some?
  {
    ShuffledMembers(es, fs);
    GroupHolds(es, id);
    GroupHolds(fs, id);
    forall kind
      ensures Borne(es, id, kind) <==> Borne(fs, id, kind)
      ensures Chosen(es, id, kind).Some? <==> Chosen(fs, id, kind).Some?
    {
      BorneMembers(es, fs, id, kind);
      BorneMembers(fs, es, id, kind);
      var i := ChosenIsFinal(es, id, kind);
      var j := ChosenIsFinal(fs, id, kind);
    }
  }

  /** An event of the id and type that none is later than. */
  ghost predicate Maximal(rs: seq<Reading>, id: string, kind: Kind, e: Event) {
    Grouped(id, kind, e) in rs && forall r | r in rs && r.Grouped? && r.id == id && r.kind == kind :: LexLe(Stamp(r.event), Stamp(e))
  }

  /** However many events are the latest, they are the same event. */
  ghost predicate MaximaAgree(rs: seq<Reading>, id: string, kind: Kind) {
    forall e, f | Maximal(rs, id, kind, e) && Maximal(rs, id, kind, f) :: e == f
  }

  lemma ChosenIsMaximal(es: seq<Entry>, id: string, kind: Kind)
    requires Chosen(es, id, kind).Some?
    ensures Maximal(Readings(es), id, kind, Chosen(es, id, kind).value)
  {
    var i := ChosenIsFinal(es, id, kind);
    assert Readings(es)[i] == Grouped(id, kind, es[i].reading.event);
    forall r | r in Readings(es) && r.Grouped? && r.id == id && r.kind == kind ensures LexLe(Stamp(r.event), Stamp(es[i].reading.event)) {
      var j :| 0 <= j < |es| && Readings(es)[j] == r;
      assert Bears(es[j], id, kind);
    }
  }

  lemma ChosenIfMaximaAgree(es: seq<Entry>, fs: seq<Entry>, id: string, kind: Kind)
    requires Shuffled(es, fs) && MaximaAgree(Readings(es), id, kind)
    ensures Chosen(fs, id, kind) == Chosen(es, id, kind)
  {
    ShuffleKeepsIds(es, fs, id);
    ShuffledMembers(es, fs);
    if Chosen(es, id, kind).Some? {
      ChosenIsMaximal(es, id, kind);
      ChosenIsMaximal(fs, id, kind);
      assert Maximal(Readings(es), id, kind, Chosen(fs, id, kind).value);
    }
  }

  lemma MovedLast(es: seq<Entry>, i: nat)
    requires i < |es|
    ensures Shuffled(es, es[..i] + es[i + 1..] + [es[i]])
  {
    var before, here, after := Readings(es[..i]), [es[i].reading], Readings(es[i + 1..]);
    assert Readings(es) == before + here + after;
    assert Readings(es[..i] + es[i + 1..] + [es[i]]) == before + after + here;
  }

  lemma LastChosen(init: seq<Entry>, last: Entry, id: string, kind: Kind)
    requires Bears(last, id, kind)
    requires forall i | 0 <= i < |init| && Bears(init[i], id, kind) :: LexLe(Stamp(init[i].reading.event), Stamp(last.reading.event))
    ensures Chosen(init + [last], id, kind) == Some(last.reading.event)
  {
    assert (init + [last])[..|init|] == init;
    ChosenStep(init + [last], id, kind);
    var i := ChosenIsFinal(init, id, kind);
  }

  /** Any of the latest events is kept when its line comes last. */
  lemma MaximalLast(es: seq<Entry>, id: string, kind: Kind, e: Event) returns (fs: seq<Entry>)
    requires Maximal(Readings(es), id, kind, e)
    ensures Shuffled(es, fs) && Chosen(fs, id, kind) == Some(e)
  {
    var i :| 0 <= i < |es| && Readings(es)[i] == Grouped(id, kind, e);
    var init := es[..i] + es[i + 1..];
    fs := init + [es[i]];
    MovedLast(es, i);
    forall k | 0 <= k < |init| && Bears(init[k], id, kind) ensures LexLe(Stamp(init[k].reading.event), Stamp(e)) {
      var j := if k < i then k else k + 1;
      assert init[k] == es[j] && Readings(es)[j] == es[j].reading;
    }
    LastChosen(init, es[i], id, kind);
  }

  /** The order of the lines does not change what is kept exactly when the latest events are all the same. */
  lemma ChoiceStableIff(es: seq<Entry>, id: string, kind: Kind)
    ensures (forall fs | Shuffled(es, fs) :: Chosen(fs, id, kind) == Chosen(es, id, kind)) <==> MaximaAgree(Readings(es), id, kind)
  {
    forall fs | Shuffled(es, fs) && MaximaAgree(Readings(es), id, kind) ensures Chosen(fs, id, kind) == Chosen(es, id, kind) {
      ChosenIfMaximaAgree(es, fs, id, kind);
    }
    if !MaximaAgree(Readings(es), id, kind) {
      var e, f :| Maximal(Readings(es), id, kind, e) && Maximal(Readings(es), id, kind, f) && e != f;
      var es1 := MaximalLast(es, id, kind, e);
      var es2 := MaximalLast(es, id, kind, f);
      assert Chosen(es1, id, kind) != Chosen(es2, id, kind);
    }
  }

  /** A tie that the order decides: two requests of one id and one timestamp. */
  lemma TieBrokenByOrder(id: string, path: string, e: Event, f: Event)
    requires Stamp(e) == Stamp(f) && e != f
    ensures var x, y := Entry(path, 1, Grouped(id, Request, e)), Entry(path, 2, Grouped(id, Request, f));
            Shuffled([x, y], [y, x]) && Chosen([x, y], id, Request) == Some(f) && Chosen([y, x], id, Request) == Some(e)
  {
    var x, y := Entry(path, 1, Grouped(id, Request, e)), Entry(path, 2, Grouped(id, Request, f));
    LexReflexive(Stamp(e));
    LastChosen([x], y, id, Request);
    LastChosen([y], x, id, Request);
    assert [x] + [y] == [x, y] && [y] + [x] == [y, x];
    assert Readings([x, y]) == [x.reading] + [y.reading] && Readings([y, x]) == [y.reading] + [x.reading];
  }

  /** Events of one id and type have different timestamps. */
  predicate DistinctStamps(es: seq<Entry>) {
    forall i, j | 0 <= i < j < |es| && es[i].reading.Grouped? && Bears(es[j], es[i].reading.id, es[i].reading.kind) ::
      Stamp(es[i].reading.event) != Stamp(es[j].reading.event)
  }

  lemma DistinctStampsAgree(es: seq<Entry>, id: string, kind: Kind)
    requires DistinctStamps(es)
    ensures MaximaAgree(Readings(es), id, kind)
  {
    forall e, f | Maximal(Readings(es), id, kind, e) && Maximal(Readings(es), id, kind, f) ensures e == f {
      LexAntisymmetric(Stamp(e), Stamp(f));
      var i :| 0 <= i < |es| && Readings(es)[i] == Grouped(id, kind, e);
      var j :| 0 <= j < |es| && Readings(es)[j] == Grouped(id, kind, f);
      assert Bears(es[i], id, kind) && Bears(es[j], id, kind);
    }
  }
}
