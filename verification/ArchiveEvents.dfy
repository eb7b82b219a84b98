/** Grouping archive lines by archive id. */
module ArchiveEvents {
  import opened Basics
  import opened Strings
  import opened JsonValues
  import opened StringOrder

  // --------------------------------------------------------------------- events

  /** The keys of an event object that the tool looks at. */
  datatype Field =
    | ARCHIVE_ID | EVENT | TIMESTAMP | METHOD | PATH | ENDPOINT | MODEL | USER_ID | API_KEY_ID | GROUP_ID | ACCOUNT_ID
    | CLIENT_IP | USER_AGENT | STATUS | DURATION_MS | BODY_SIZE | BODY_TRUNCATED
    | Extra(name: string)

  /** A decoded JSON object. */
  type Event = map<Field, Scalar>

  function Get(e: Event, f: Field): Scalar {
    if f in e then e[f] else Absent
  }

  /** Python's `str(e.get(f) or "")`. */
  function Shown(e: Event, f: Field): string {
    Str(Or(Get(e, f), Text([])))
  }

  function Stamp(e: Event): string {
    Shown(e, TIMESTAMP)
  }

  datatype Kind = Request | Response

  const REQUEST: string := "request"
  const RESPONSE: string := "response"

  function KindOf(e: Event): Option<Kind> {
    var kind := Strip(Shown(e, EVENT));
    if kind == REQUEST then Some(Request) else if kind == RESPONSE then Some(Response) else None
  }

  /** How a line of JSON text decodes to an object, if it does. */
  type Decoder = string -> Option<Event>

  datatype Problem = InvalidJson | Unsupported

  /** What one line of a file amounts to. */
  datatype Reading = Skipped | Warned(problem: Problem) | Grouped(id: string, kind: Kind, event: Event)

  function ReadLine(d: Decoder, raw: string): Reading {
    var line := Strip(raw);
    if line == [] then Skipped
    else
      match d(line)
      case None => Warned(InvalidJson)
      case Some(event) =>
        var id := Strip(Shown(event, ARCHIVE_ID));
        if id == [] || KindOf(event).None? then Warned(Unsupported) else Grouped(id, KindOf(event).value, event)
  }

  /** What a field shows: nothing when it is missing or false in Python's sense. */
  lemma ShownMeaning(e: Event, f: Field)
    ensures f !in e ==> Shown(e, f) == ""
    ensures f in e ==> Shown(e, f) == match e[f]
                                      case Absent => ""
                                      case Text(text) => text
                                      case Number(n) => if n == 0 then "" else Decimal(n)
                                      case Other(shown, truthy) => if truthy then shown else ""
  {
  }

  /** The text of an event's type. */
  function TypeText(kind: Kind): string {
    match kind
    case Request => "request"
    case Response => "response"
  }

  /** Grouped events carry the id and the type that they are grouped under; so they are not empty objects. */
  predicate Proper(r: Reading) {
    r.Grouped? ==>
      && r.event != map[] && r.id != [] && r.id == Strip(Shown(r.event, ARCHIVE_ID))
      && Strip(Shown(r.event, EVENT)) == TypeText(r.kind)
  }

  /** The line holds the object `e`, with an id, and `text` for its type. */
  predicate Holds(d: Decoder, raw: string, id: string, text: string, e: Event) {
    && Strip(raw) != "" && d(Strip(raw)) == Some(e)
    && id != "" && Strip(Shown(e, ARCHIVE_ID)) == id && Strip(Shown(e, EVENT)) == text
  }

  /** The line holds an object that has no id, or neither of the two types. */
  predicate Unusable(d: Decoder, raw: string) {
    && Strip(raw) != "" && d(Strip(raw)).Some?
    && var e := d(Strip(raw)).value;
    && (Strip(Shown(e, ARCHIVE_ID)) == "" || (Strip(Shown(e, EVENT)) != "request" && Strip(Shown(e, EVENT)) != "response"))
  }

  /** What a line amounts to, read off its text: a request or a response by the text of its type, or a warning. */
  lemma LineMeaning(d: Decoder, raw: string)
    ensures forall id, e :: ReadLine(d, raw) == Grouped(id, Request, e) <==> Holds(d, raw, id, "request", e)
    ensures forall id, e :: ReadLine(d, raw) == Grouped(id, Response, e) <==> Holds(d, raw, id, "response", e)
    ensures ReadLine(d, raw) == Warned(Unsupported) <==> Unusable(d, raw)
    ensures ReadLine(d, raw) == Warned(InvalidJson) <==> Strip(raw) != "" && d(Strip(raw)).None?
    ensures ReadLine(d, raw) == Skipped <==> Strip(raw) == ""
  {
    assert |"request"| != |"response"|;
  }

  lemma ReadLineProper(d: Decoder, raw: string)
    ensures Proper(ReadLine(d, raw))
    ensures ReadLine(d, raw) == Skipped <==> Strip(raw) == []
  {
    var blank: Event := map[];
    assert Shown(blank, ARCHIVE_ID) == [] && Strip([]) == [];
  }

  // ---------------------------------------------------------------------- lines

  datatype File = File(path: string, lines: seq<string>)

  datatype Entry = Entry(path: string, number: nat, reading: Reading)

  function FileEntries(d: Decoder, f: File): seq<Entry> {
    seq(|f.lines|, i requires 0 <= i < |f.lines| => Entry(f.path, i + 1, ReadLine(d, f.lines[i])))
  }

  function Entries(d: Decoder, files: seq<File>): seq<Entry> {
    if files == [] then [] else Entries(d, files[..|files| - 1]) + FileEntries(d, files[|files| - 1])
  }

  lemma EntriesOneMore(d: Decoder, files: seq<File>, f: File)
    ensures Entries(d, files + [f]) == Entries(d, files) + FileEntries(d, f)
  {
    assert (files + [f])[..|files|] == files;
  }

  lemma EntriesAppendOneMore(d: Decoder, a: seq<File>, b: seq<File>, f: File)
    requires Entries(d, a + b) == Entries(d, a) + Entries(d, b)
    ensures Entries(d, a + (b + [f])) == Entries(d, a) + Entries(d, b + [f])
  {
    EntriesOneMore(d, a + b, f);
    EntriesOneMore(d, b, f);
    Reassociated(a, b, [f]);
    Reassociated(Entries(d, a), Entries(d, b), FileEntries(d, f));
  }

  lemma {:induction false} EntriesAppend(d: Decoder, a: seq<File>, b: seq<File>)
    ensures Entries(d, a + b) == Entries(d, a) + Entries(d, b)
  {
    if b == [] {
      assert a + b == a && Entries(d, b) == [];
    } else {
      EntriesAppend(d, a, b[..|b| - 1]);
      EntriesAppendOneMore(d, a, b[..|b| - 1], b[|b| - 1]);
      assert b[..|b| - 1] + [b[|b| - 1]] == b;
    }
  }

  lemma {:induction false} EntriesProper(d: Decoder, files: seq<File>)
    ensures forall e | e in Entries(d, files) :: Proper(e.reading)
  {
    if files != [] {
      EntriesProper(d, files[..|files| - 1]);
      var f := files[|files| - 1];
      forall i | 0 <= i < |f.lines| ensures Proper(FileEntries(d, f)[i].reading) {
        ReadLineProper(d, f.lines[i]);
      }
    }
  }

  // ---------------------------------------------------------------------- items

  datatype Item = Item(request: Option<Event>, response: Option<Event>, events: seq<Event>, sources: seq<string>)

  const EMPTY_ITEM := Item(None, None, [], [])

  function Of(item: Item, kind: Kind): Option<Event> {
    if kind == Request then item.request else item.response
  }

  /** The event with the later timestamp, the second one on ties. */
  function Later(x: Option<Event>, y: Option<Event>): Option<Event> {
    if y.None? then x
    else if x.None? then y
    else if LexLe(Stamp(x.value), Stamp(y.value)) then y else x
  }

  function AppendNew(s: seq<string>, x: string): seq<string> {
    if x in s then s else s + [x]
  }

  function AddEvent(item: Item, kind: Kind, event: Event, path: string): Item {
    var chosen := Later(Of(item, kind), Some(event));
    Item(if kind == Request then chosen else item.request,
         if kind == Response then chosen else item.response,
         item.events + [event],
         AppendNew(item.sources, path))
  }

  datatype Warning = Warning(path: string, number: nat, problem: Problem)

  /** The grouped items in the order of their first appearance, and the warnings. */
  datatype Archive = Archive(order: seq<string>, items: map<string, Item>, warnings: seq<Warning>)

  const EMPTY := Archive([], map[], [])

  function Lookup(a: Archive, id: string): Item {
    if id in a.items then a.items[id] else EMPTY_ITEM
  }

  function Step(a: Archive, e: Entry): Archive {
    match e.reading
    case Skipped => a
    case Warned(problem) => a.(warnings := a.warnings + [Warning(e.path, e.number, problem)])
    case Grouped(id, kind, event) =>
      a.(order := AppendNew(a.order, id), items := a.items[id := AddEvent(Lookup(a, id), kind, event, e.path)])
  }

  function Load(es: seq<Entry>): Archive {
    if es == [] then EMPTY else Step(Load(es[..|es| - 1]), es[|es| - 1])
  }

  lemma {:induction false} LoadKeys(es: seq<Entry>)
    ensures forall id :: id in Load(es).order <==> id in Load(es).items
    ensures NoDuplicates(Load(es).order)
  {
    if es != [] {
      LoadKeys(es[..|es| - 1]);
    }
  }

  lemma LoadOneMore(before: seq<Entry>, entries: seq<Entry>, i: nat)
    requires i < |entries|
    ensures Load(before + entries[..i + 1]) == Step(Load(before + entries[..i]), entries[i])
  {
    var all := before + entries[..i + 1];
    assert all[..|all| - 1] == before + entries[..i];
  }

  /** An event is put into its group, which is made if it is new. */
  method GroupEvent(a: Archive, id: string, kind: Kind, event: Event, path: string) returns (b: Archive)
    requires id in a.order <==> id in a.items
    ensures b == Step(a, Entry(path, 0, Grouped(id, kind, event)))
  {
    var order, items := a.order, a.items;
    if id !in items {
      order, items := order + [id], items[id := EMPTY_ITEM];
    }
    var item := items[id];
    item := item.(events := item.events + [event]);
    if path !in item.sources {
      item := item.(sources := item.sources + [path]);
    }
    var current := Of(item, kind);
    if current.None? || LexLe(Stamp(current.value), Stamp(event)) {
      item := if kind == Request then item.(request := Some(event)) else item.(response := Some(event));
    }
    b := a.(order := order, items := items[id := item]);
  }

  /** One line of a file. */
  method LoadLine(d: Decoder, a: Archive, path: string, number: nat, raw: string) returns (b: Archive)
    requires forall id :: id in a.order <==> id in a.items
    ensures b == Step(a, Entry(path, number, ReadLine(d, raw)))
  {
    var line := Strip(raw);
    if line == [] {
      return a;
    }
    var decoded := d(line);
    if decoded.None? {
      return a.(warnings := a.warnings + [Warning(path, number, InvalidJson)]);
    }
    var event := decoded.value;
    var id, kind := Strip(Shown(event, ARCHIVE_ID)), KindOf(event);
    if id == [] || kind.None? {
      return a.(warnings := a.warnings + [Warning(path, number, Unsupported)]);
    }
    b := GroupEvent(a, id, kind.value, event, path);
  }

  /** Line `i` of a file, counted from one. */
  method LoadEntry(d: Decoder, f: File, i: nat, ghost before: seq<Entry>, a: Archive) returns (b: Archive)
    requires i < |f.lines| && a == Load(before)
    ensures b == Step(a, FileEntries(d, f)[i])
  {
    LoadKeys(before);
    b := LoadLine(d, a, f.path, i + 1, f.lines[i]);
  }

  /** The lines of one file, added to what is grouped so far. */
  method LoadFile(d: Decoder, f: File, ghost before: seq<Entry>, a: Archive) returns (b: Archive)
    requires a == Load(before)
    ensures b == Load(before + FileEntries(d, f))
  {
    b := a;
    ghost var entries := FileEntries(d, f);
    assert before + entries[..0] == before;
    for i := 0 to |f.lines|
      invariant b == Load(before + entries[..i])
    {
      b := LoadEntry(d, f, i, before + entries[..i], b);
      LoadOneMore(before, entries, i);
    }
    assert entries[..|f.lines|] == entries;
  }

  /** `load_events`. */
  method LoadEvents(d: Decoder, files: seq<File>) returns (a: Archive)
    ensures a == Load(Entries(d, files))
  {
    a := EMPTY;
    for i := 0 to |files|
      invariant a == Load(Entries(d, files[..i]))
    {
      a := LoadFile(d, files[i], Entries(d, files[..i]), a);
      assert files[..i + 1][..i] == files[..i];
    }
    assert files[..|files|] == files;
  }

  // -------------------------------------------------------------------- merging

  /** Ordered union: `xs`, then what is new in `ys`. */
  function Join(xs: seq<string>, ys: seq<string>): seq<string> {
    if ys == [] then xs else AppendNew(Join(xs, ys[..|ys| - 1]), ys[|ys| - 1])
  }

  lemma {:induction false} JoinMembers(xs: seq<string>, ys: seq<string>, x: string)
    ensures x in Join(xs, ys) <==> x in xs || x in ys
  {
    if ys != [] {
      JoinMembers(xs, ys[..|ys| - 1], x);
      assert ys == ys[..|ys| - 1] + [ys[|ys| - 1]];
    }
  }

  function MergeItem(x: Item, y: Item): Item {
    Item(Later(x.request, y.request), Later(x.response, y.response), x.events + y.events, Join(x.sources, y.sources))
  }

  function Merge(a: Archive, b: Archive): Archive {
    Archive(Join(a.order, b.order),
            map id | id in a.items.Keys + b.items.Keys :: MergeItem(Lookup(a, id), Lookup(b, id)),
            a.warnings + b.warnings)
  }

  lemma LaterAssociative(x: Option<Event>, y: Option<Event>, z: Option<Event>)
    ensures Later(Later(x, y), z) == Later(x, Later(y, z))
  {
    if x.Some? && y.Some? && z.Some? {
      var s, t, u := Stamp(x.value), Stamp(y.value), Stamp(z.value);
      LexTotal(t, u);
      LexTotal(s, t);
      if LexLe(s, t) && LexLe(t, u) {
        LexTransitive(s, t, u);
      }
      if LexLe(u, t) && LexLe(t, s) {
        LexTransitive(u, t, s);
        if LexLe(s, u) {
          LexAntisymmetric(s, u);
        }
      }
    }
  }

  lemma JoinAppendNew(xs: seq<string>, ys: seq<string>, x: string)
    ensures Join(xs, AppendNew(ys, x)) == AppendNew(Join(xs, ys), x)
  {
    JoinMembers(xs, ys, x);
    assert (ys + [x])[..|ys|] == ys;
  }

  lemma {:induction false} JoinAssociative(xs: seq<string>, ys: seq<string>, zs: seq<string>)
    ensures Join(Join(xs, ys), zs) == Join(xs, Join(ys, zs))
  {
    if zs != [] {
      JoinAssociative(xs, ys, zs[..|zs| - 1]);
      JoinAppendNew(xs, Join(ys, zs[..|zs| - 1]), zs[|zs| - 1]);
    }
  }

  lemma MergeAddEvent(x: Item, y: Item, kind: Kind, event: Event, path: string)
    ensures MergeItem(x, AddEvent(y, kind, event, path)) == AddEvent(MergeItem(x, y), kind, event, path)
  {
    LaterAssociative(Of(x, kind), Of(y, kind), Some(event));
    JoinAppendNew(x.sources, y.sources, path);
  }

  lemma MergeEmpty(a: Archive)
    ensures Merge(a, EMPTY) == a
  {
    forall id | id in a.items ensures MergeItem(a.items[id], EMPTY_ITEM) == a.items[id] {}
  }

  lemma LookupMerge(a: Archive, b: Archive, id: string)
    ensures Lookup(Merge(a, b), id) == MergeItem(Lookup(a, id), Lookup(b, id))
    ensures id in Merge(a, b).items <==> id in a.items || id in b.items
  {
  }

  lemma SameItems(m: map<string, Item>, n: map<string, Item>)
    requires forall id :: id in m <==> id in n
    requires forall id | id in m :: m[id] == n[id]
    ensures m == n
  {
  }

  lemma MergeStepAt(a: Archive, b: Archive, e: Entry, id: string)
    requires e.reading.Grouped?
    ensures Lookup(Merge(a, Step(b, e)), id) == Lookup(Step(Merge(a, b), e), id)
    ensures id in Merge(a, Step(b, e)).items <==> id in Step(Merge(a, b), e).items
  {
    LookupMerge(a, b, id);
    LookupMerge(a, Step(b, e), id);
    MergeAddEvent(Lookup(a, id), Lookup(b, id), e.reading.kind, e.reading.event, e.path);
  }

  lemma MergeStep(a: Archive, b: Archive, e: Entry)
    ensures Merge(a, Step(b, e)) == Step(Merge(a, b), e)
  {
    if e.reading.Grouped? {
      var l, r := Merge(a, Step(b, e)), Step(Merge(a, b), e);
      forall id ensures Lookup(l, id) == Lookup(r, id) && (id in l.items <==> id in r.items) {
        MergeStepAt(a, b, e, id);
      }
      assert forall id | id in l.items :: Lookup(l, id) == l.items[id] && Lookup(r, id) == r.items[id];
      SameItems(l.items, r.items);
      JoinAppendNew(a.order, b.order, e.reading.id);
    }
  }

  /** Loading is a homomorphism: lines loaded in two parts and merged are lines loaded at once. */
  lemma {:induction false} LoadAppend(es: seq<Entry>, fs: seq<Entry>)
    ensures Load(es + fs) == Merge(Load(es), Load(fs))
  {
    if fs == [] {
      assert es + fs == es;
      MergeEmpty(Load(es));
    } else {
      var init, last := fs[..|fs| - 1], fs[|fs| - 1];
      LoadAppend(es, init);
      assert (es + fs)[..|es + fs| - 1] == es + init;
      MergeStep(Load(es), Load(init), last);
    }
  }

  /** For files: load any two groups of files apart, and merge. */
  lemma LoadFilesAppend(d: Decoder, a: seq<File>, b: seq<File>)
    ensures Load(Entries(d, a + b)) == Merge(Load(Entries(d, a)), Load(Entries(d, b)))
  {
    EntriesAppend(d, a, b);
    LoadAppend(Entries(d, a), Entries(d, b));
  }

  lemma MergeItemAssociative(x: Item, y: Item, z: Item)
    ensures MergeItem(MergeItem(x, y), z) == MergeItem(x, MergeItem(y, z))
  {
    LaterAssociative(x.request, y.request, z.request);
    LaterAssociative(x.response, y.response, z.response);
    JoinAssociative(x.sources, y.sources, z.sources);
  }

  lemma MergeAssociativeAt(a: Archive, b: Archive, c: Archive, id: string)
    ensures Lookup(Merge(Merge(a, b), c), id) == Lookup(Merge(a, Merge(b, c)), id)
    ensures id in Merge(Merge(a, b), c).items <==> id in Merge(a, Merge(b, c)).items
  {
    LookupMerge(a, b, id);
    LookupMerge(b, c, id);
    LookupMerge(Merge(a, b), c, id);
    LookupMerge(a, Merge(b, c), id);
    MergeItemAssociative(Lookup(a, id), Lookup(b, id), Lookup(c, id));
  }

  /** Merging is associative, on all archives. */
  lemma MergeAssociative(a: Archive, b: Archive, c: Archive)
    ensures Merge(Merge(a, b), c) == Merge(a, Merge(b, c))
  {
    var l, r := Merge(Merge(a, b), c), Merge(a, Merge(b, c));
    JoinAssociative(a.order, b.order, c.order);
    forall id ensures Lookup(l, id) == Lookup(r, id) && (id in l.items <==> id in r.items) {
      MergeAssociativeAt(a, b, c, id);
    }
    assert forall id | id in l.items :: Lookup(l, id) == l.items[id] && Lookup(r, id) == r.items[id];
    SameItems(l.items, r.items);
    assert l.order == r.order && l.warnings == r.warnings;
  }
}
