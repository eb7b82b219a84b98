/** What the order of the archive lines changes in the output, and what it does not. */
module ArchiveShuffles {
  import opened Basics
  import opened Strings
  import opened JsonValues
  import opened StringOrder
  import opened ArchiveEvents
  import opened ArchiveMeaning
  import opened ArchiveRecords

  // ------------------------------------------------------------------- any shuffle

  function Unsourced(rs: seq<Record>): seq<Record> {
    seq(|rs|, i requires 0 <= i < |rs| => rs[i].(sourceFiles := []))
  }

  ghost predicate AllMaximaAgree(es: seq<Entry>) {
    forall id, kind :: MaximaAgree(Readings(es), id, kind)
  }

  lemma UnsourcedOutput(es: seq<Entry>, r: Record)
    ensures r in Unsourced(Output(Load(es)))
       <==> r.archiveId in Load(es).items && r == AssembleRecord(r.archiveId, Load(es).items[r.archiveId]).(sourceFiles := [])
  {
    OutputMembers(es);
    var rs := Output(Load(es));
    if r in Unsourced(rs) {
      var i :| 0 <= i < |rs| && Unsourced(rs)[i] == r;
      assert rs[i] in rs;
    }
    if r.archiveId in Load(es).items && r == AssembleRecord(r.archiveId, Load(es).items[r.archiveId]).(sourceFiles := []) {
      var x := AssembleRecord(r.archiveId, Load(es).items[r.archiveId]);
      assert x in rs;
      var i :| 0 <= i < |rs| && rs[i] == x;
      assert Unsourced(rs)[i] == r;
    }
  }

  lemma SameChoiceSameRecord(id: string, x: Item, y: Item)
    requires x.request == y.request && x.response == y.response
    ensures AssembleRecord(id, x).(sourceFiles := []) == AssembleRecord(id, y).(sourceFiles := [])
  {
  }

  lemma UnsourcedMembers(es: seq<Entry>, fs: seq<Entry>, r: Record)
    requires Shuffled(es, fs) && AllMaximaAgree(es)
    ensures r in Unsourced(Output(Load(es))) <==> r in Unsourced(Output(Load(fs)))
  {
    var id := r.archiveId;
    UnsourcedOutput(es, r);
    UnsourcedOutput(fs, r);
    ShuffleKeepsIds(es, fs, id);
    ChosenIfMaximaAgree(es, fs, id, Request);
    ChosenIfMaximaAgree(es, fs, id, Response);
    SameChoiceSameRecord(id, Lookup(Load(es), id), Lookup(Load(fs), id));
  }

  lemma UnsourcedStrict(rs: seq<Record>)
    requires StrictlyAscending(rs)
    ensures StrictlyAscending(Unsourced(rs))
  {
  }

  /** When the latest events of each id and type agree, lines in any order, in any files, give the same
      records in the same order; only the lists of source files may differ. */
  lemma ShuffleKeepsOutput(es: seq<Entry>, fs: seq<Entry>)
    requires Shuffled(es, fs) && AllMaximaAgree(es)
    ensures Unsourced(Output(Load(es))) == Unsourced(Output(Load(fs)))
  {
    forall r ensures r in Unsourced(Output(Load(es))) <==> r in Unsourced(Output(Load(fs))) {
      UnsourcedMembers(es, fs, r);
    }
    OutputStrict(es);
    OutputStrict(fs);
    UnsourcedStrict(Output(Load(es)));
    UnsourcedStrict(Output(Load(fs)));
    StrictUnique(Unsourced(Output(Load(es))), Unsourced(Output(Load(fs))));
  }

  /** In particular when events of one id and type have different timestamps. */
  lemma DistinctStampsKeepOutput(es: seq<Entry>, fs: seq<Entry>)
    requires Shuffled(es, fs) && DistinctStamps(es)
    ensures Unsourced(Output(Load(es))) == Unsourced(Output(Load(fs)))
  {
    forall id, kind ensures MaximaAgree(Readings(es), id, kind) {
      DistinctStampsAgree(es, id, kind);
    }
    ShuffleKeepsOutput(es, fs);
  }

  /** Whatever the timestamps, each id keeps its record and its status. */
  lemma ShuffleKeepsStatus(es: seq<Entry>, fs: seq<Entry>, id: string)
    requires Shuffled(es, fs) && AllProper(es) && id in Load(es).items
    ensures id in Load(fs).items
    ensures AssembleRecord(id, Load(es).items[id]).status == AssembleRecord(id, Load(fs).items[id]).status
  {
    ShuffleKeepsIds(es, fs, id);
    ShuffledMembers(es, fs);
    forall e | e in fs ensures Proper(e.reading) {
      var i :| 0 <= i < |fs| && fs[i] == e;
      assert Readings(fs)[i] in Readings(es);
      var j :| 0 <= j < |es| && Readings(es)[j] == Readings(fs)[i];
      assert es[j] in es;
    }
    BorneMembers(es, fs, id, Request);
    BorneMembers(fs, es, id, Request);
    BorneMembers(es, fs, id, Response);
    BorneMembers(fs, es, id, Response);
    StatusOfKinds(es, id);
    StatusOfKinds(fs, id);
  }

  lemma DifferentChoiceDifferentOutput(es: seq<Entry>, fs: seq<Entry>, id: string, kind: Kind)
    requires Shuffled(es, fs) && Chosen(es, id, kind) != Chosen(fs, id, kind)
    ensures Unsourced(Output(Load(es))) != Unsourced(Output(Load(fs)))
  {
    ShuffleKeepsIds(es, fs, id);
    GroupHolds(es, id);
    var i := ChosenIsFinal(es, id, kind);
    var r := AssembleRecord(id, Lookup(Load(es), id)).(sourceFiles := []);
    UnsourcedOutput(es, r);
    UnsourcedOutput(fs, r);
  }

  /** The order of the lines never changes the output, source files aside, exactly when all latest events agree. */
  lemma OutputStableIff(es: seq<Entry>)
    ensures (forall fs | Shuffled(es, fs) :: Unsourced(Output(Load(fs))) == Unsourced(Output(Load(es)))) <==> AllMaximaAgree(es)
  {
    if AllMaximaAgree(es) {
      forall fs | Shuffled(es, fs) ensures Unsourced(Output(Load(fs))) == Unsourced(Output(Load(es))) {
        ShuffleKeepsOutput(es, fs);
      }
    } else {
      var id, kind :| !MaximaAgree(Readings(es), id, kind);
      ChoiceStableIff(es, id, kind);
      var fs :| Shuffled(es, fs) && Chosen(fs, id, kind) != Chosen(es, id, kind);
      DifferentChoiceDifferentOutput(es, fs, id, kind);
    }
  }

  // ------------------------------------------------------- a shuffle within each file

  /** The same files with their lines in another order. */
  ghost predicate ShuffledWithin(a: seq<File>, b: seq<File>) {
    |a| == |b| && forall i | 0 <= i < |a| :: a[i].path == b[i].path && multiset(a[i].lines) == multiset(b[i].lines)
  }

  function Mapped<A, B>(f: A -> B, s: seq<A>): seq<B> {
    seq(|s|, i requires 0 <= i < |s| => f(s[i]))
  }

  lemma TakenOut<T>(front: seq<T>, x: T, back: seq<T>)
    ensures multiset(front + [x] + back) == multiset(front + back) + multiset{x}
  {
  }

  /** Taking one item out takes its image out. */
  lemma ImageTakenOut<A, B>(f: A -> B, front: seq<A>, x: A, back: seq<A>)
    ensures multiset(Mapped(f, front + [x] + back)) == multiset(Mapped(f, front + back)) + multiset{f(x)}
  {
    TakenOut(Mapped(f, front), f(x), Mapped(f, back));
    assert Mapped(f, front + [x] + back) == Mapped(f, front) + [f(x)] + Mapped(f, back);
    assert Mapped(f, front + back) == Mapped(f, front) + Mapped(f, back);
  }

  lemma SameBagWithout<T>(a: seq<T>, x: T, front: seq<T>, back: seq<T>)
    requires multiset([x] + a) == multiset(front + [x] + back)
    ensures multiset(a) == multiset(front + back)
  {
    TakenOut(front, x, back);
    assert multiset(a) == multiset([x] + a) - multiset{x};
    assert multiset(front + back) == multiset(front + [x] + back) - multiset{x};
  }

  lemma PulledOut<T>(a: seq<T>, b: seq<T>) returns (rest: seq<T>, front: seq<T>, back: seq<T>)
    requires multiset(a) == multiset(b) && a != []
    ensures a == [a[0]] + rest && b == front + [a[0]] + back && multiset(rest) == multiset(front + back)
  {
    assert a[0] in multiset(b);
    var j :| 0 <= j < |b| && b[j] == a[0];
    rest, front, back := a[1..], b[..j], b[j + 1..];
    assert a == [a[0]] + rest && b == front + [a[0]] + back;
    SameBagWithout(rest, a[0], front, back);
  }

  lemma {:induction false} SameBagSameImage<A, B>(f: A -> B, a: seq<A>, b: seq<A>)
    requires multiset(a) == multiset(b)
    ensures multiset(Mapped(f, a)) == multiset(Mapped(f, b))
    decreases |a|
  {
    assert |multiset(a)| == |a| && |multiset(b)| == |b|;
    if a != [] {
      var rest, front, back := PulledOut(a, b);
      SameBagSameImage(f, rest, front + back);
      ImageTakenOut(f, [], a[0], rest);
      ImageTakenOut(f, front, a[0], back);
      assert [] + [a[0]] + rest == a && [] + rest == rest;
    } else {
      assert b == [];
    }
  }

  lemma ReadingsAppend(es: seq<Entry>, fs: seq<Entry>)
    ensures Readings(es + fs) == Readings(es) + Readings(fs)
  {
  }

  lemma SameLinesSameReadings(d: Decoder, f: File, g: File)
    requires multiset(f.lines) == multiset(g.lines)
    ensures multiset(Readings(FileEntries(d, f))) == multiset(Readings(FileEntries(d, g)))
  {
    var read := (x: string) => ReadLine(d, x);
    SameBagSameImage(read, f.lines, g.lines);
    assert Readings(FileEntries(d, f)) == Mapped(read, f.lines) && Readings(FileEntries(d, g)) == Mapped(read, g.lines);
  }

  lemma {:induction false} ShuffledWithinShuffles(d: Decoder, a: seq<File>, b: seq<File>)
    requires ShuffledWithin(a, b)
    ensures Shuffled(Entries(d, a), Entries(d, b))
  {
    if a != [] {
      var n := |a| - 1;
      ShuffledWithinShuffles(d, a[..n], b[..n]);
      SameLinesSameReadings(d, a[n], b[n]);
      ReadingsAppend(Entries(d, a[..n]), FileEntries(d, a[n]));
      ReadingsAppend(Entries(d, b[..n]), FileEntries(d, b[n]));
    }
  }

  /** Some line of the file has an event of the id. */
  predicate Mentions(d: Decoder, lines: seq<string>, id: string) {
    exists x | x in lines :: ReadLine(d, x).Grouped? && ReadLine(d, x).id == id
  }

  lemma PathsStep(es: seq<Entry>, e: Entry, id: string)
    ensures PathsOf(es + [e], id) == if Carries(e, id) then AppendNew(PathsOf(es, id), e.path) else PathsOf(es, id)
  {
    assert (es + [e])[..|es|] == es;
  }

  lemma LastMentions(d: Decoder, lines: seq<string>, x: string, id: string)
    ensures Mentions(d, lines + [x], id) <==> Mentions(d, lines, id) || (ReadLine(d, x).Grouped? && ReadLine(d, x).id == id)
  {
    if ReadLine(d, x).Grouped? {
      assert x in lines + [x];
    }
  }

  lemma OneMoreLine(d: Decoder, path: string, lines: seq<string>, x: string)
    ensures FileEntries(d, File(path, lines + [x])) == FileEntries(d, File(path, lines)) + [Entry(path, |lines| + 1, ReadLine(d, x))]
  {
  }

  /** What a file adds to the source files of an id. */
  function PathsWith(paths: seq<string>, d: Decoder, path: string, lines: seq<string>, id: string): seq<string> {
    if Mentions(d, lines, id) then AppendNew(paths, path) else paths
  }

  lemma PathsOneMoreLine(es: seq<Entry>, d: Decoder, path: string, lines: seq<string>, x: string, id: string)
    requires PathsOf(es + FileEntries(d, File(path, lines)), id) == PathsWith(PathsOf(es, id), d, path, lines, id)
    ensures PathsOf(es + FileEntries(d, File(path, lines + [x])), id) == PathsWith(PathsOf(es, id), d, path, lines + [x], id)
  {
    var e := Entry(path, |lines| + 1, ReadLine(d, x));
    OneMoreLine(d, path, lines, x);
    Reassociated(es, FileEntries(d, File(path, lines)), [e]);
    PathsStep(es + FileEntries(d, File(path, lines)), e, id);
    LastMentions(d, lines, x, id);
  }

  lemma {:induction false} PathsInFile(es: seq<Entry>, d: Decoder, path: string, lines: seq<string>, id: string)
    ensures PathsOf(es + FileEntries(d, File(path, lines)), id) == PathsWith(PathsOf(es, id), d, path, lines, id)
    decreases |lines|
  {
    if lines == [] {
      assert es + FileEntries(d, File(path, lines)) == es;
    } else {
      PathsInFile(es, d, path, lines[..|lines| - 1], id);
      PathsOneMoreLine(es, d, path, lines[..|lines| - 1], lines[|lines| - 1], id);
      assert lines[..|lines| - 1] + [lines[|lines| - 1]] == lines;
    }
  }

  lemma SameLinesMention(d: Decoder, a: seq<string>, b: seq<string>, id: string)
    requires multiset(a) == multiset(b)
    ensures Mentions(d, a, id) <==> Mentions(d, b, id)
  {
    assert forall x :: x in a <==> x in multiset(a);
    assert forall x :: x in b <==> x in multiset(b);
  }

  lemma {:induction false} ShuffledWithinPaths(d: Decoder, a: seq<File>, b: seq<File>, id: string)
    requires ShuffledWithin(a, b)
    ensures PathsOf(Entries(d, a), id) == PathsOf(Entries(d, b), id)
  {
    if a != [] {
      var n := |a| - 1;
      ShuffledWithinPaths(d, a[..n], b[..n], id);
      PathsInFile(Entries(d, a[..n]), d, a[n].path, a[n].lines, id);
      PathsInFile(Entries(d, b[..n]), d, b[n].path, b[n].lines, id);
      SameLinesMention(d, a[n].lines, b[n].lines, id);
    }
  }

  lemma SameRecordWithin(d: Decoder, a: seq<File>, b: seq<File>, id: string)
    requires ShuffledWithin(a, b) && AllMaximaAgree(Entries(d, a))
    ensures AssembleRecord(id, Lookup(Load(Entries(d, a)), id)) == AssembleRecord(id, Lookup(Load(Entries(d, b)), id))
  {
    var es, fs := Entries(d, a), Entries(d, b);
    ShuffledWithinShuffles(d, a, b);
    ChosenIfMaximaAgree(es, fs, id, Request);
    ChosenIfMaximaAgree(es, fs, id, Response);
    GroupHolds(es, id);
    GroupHolds(fs, id);
    ShuffledWithinPaths(d, a, b, id);
  }

  /** When the latest events agree, reordering the lines of each file changes nothing in the output at all. */
  lemma ShuffleWithinKeepsOutput(d: Decoder, a: seq<File>, b: seq<File>)
    requires ShuffledWithin(a, b) && AllMaximaAgree(Entries(d, a))
    ensures Output(Load(Entries(d, a))) == Output(Load(Entries(d, b)))
  {
    var es, fs := Entries(d, a), Entries(d, b);
    ShuffledWithinShuffles(d, a, b);
    OutputMembers(es);
    OutputMembers(fs);
    forall r ensures r in Output(Load(es)) <==> r in Output(Load(fs)) {
      ShuffleKeepsIds(es, fs, r.archiveId);
      SameRecordWithin(d, a, b, r.archiveId);
    }
    OutputStrict(es);
    OutputStrict(fs);
    StrictUnique(Output(Load(es)), Output(Load(fs)));
  }
}
