/** The assembled records: their contents, their order, and the counts. */
module ArchiveRecords {
  import opened Basics
  import opened Strings
  import opened JsonValues
  import opened StringOrder
  import opened ArchiveEvents
  import opened ArchiveMeaning

  // -------------------------------------------------------------------- records

  datatype Status = Complete | RequestOnly | ResponseOnly | Empty

  datatype Record = Record(
    archiveId: string,
    status: Status,
    requestTimestamp: Scalar,
    responseTimestamp: Scalar,
    verb: Scalar,
    path: Scalar,
    endpoint: Scalar,
    model: Scalar,
    userId: Scalar,
    apiKeyId: Scalar,
    groupId: Scalar,
    accountId: Scalar,
    clientIp: Scalar,
    userAgent: Scalar,
    httpStatus: Scalar,
    durationMs: Scalar,
    requestBodySize: Scalar,
    responseBodySize: Scalar,
    requestBodyTruncated: bool,
    responseBodyTruncated: bool,
    sourceFiles: seq<string>,
    request: Option<Event>,
    response: Option<Event>)

  /** Python's `e or {}`: no event and the empty object are both false. */
  function Object(e: Option<Event>): Event {
    if e.Some? then e.value else map[]
  }

  function AssembleRecord(id: string, item: Item): Record {
    var request, response := Object(item.request), Object(item.response);
    var status := if request != map[] && response != map[] then Complete
                  else if request != map[] then RequestOnly
                  else if response != map[] then ResponseOnly
                  else Empty;
    var source := if request != map[] then request else response;
    Record(id, status, Get(source, TIMESTAMP), Get(response, TIMESTAMP),
           Get(source, METHOD), Get(source, PATH), Get(source, ENDPOINT), Get(source, MODEL),
           Get(source, USER_ID), Get(source, API_KEY_ID), Get(source, GROUP_ID),
           Or(Get(response, ACCOUNT_ID), Get(source, ACCOUNT_ID)),
           Get(source, CLIENT_IP), Get(source, USER_AGENT),
           Get(response, STATUS), Get(response, DURATION_MS), Get(request, BODY_SIZE), Get(response, BODY_SIZE),
           Truthy(Get(request, BODY_TRUNCATED)), Truthy(Get(response, BODY_TRUNCATED)),
           item.sources, item.request, item.response)
  }

  function SortStamp(r: Record): string {
    Str(Or(Or(r.requestTimestamp, r.responseTimestamp), Text([])))
  }

  /** Pairs are compared by timestamp, then by id. */
  predicate KeyLe(r: Record, s: Record) {
    LexLe(SortStamp(r), SortStamp(s)) && (SortStamp(r) == SortStamp(s) ==> LexLe(r.archiveId, s.archiveId))
  }

  predicate KeyLt(r: Record, s: Record) {
    KeyLe(r, s) && !KeyLe(s, r)
  }

  lemma KeyTotal(r: Record, s: Record)
    ensures KeyLe(r, s) || KeyLe(s, r)
    ensures KeyLe(r, s) && KeyLe(s, r) ==> r.archiveId == s.archiveId
  {
    LexTotal(SortStamp(r), SortStamp(s));
    LexTotal(r.archiveId, s.archiveId);
    if KeyLe(r, s) && KeyLe(s, r) {
      LexAntisymmetric(SortStamp(r), SortStamp(s));
      LexAntisymmetric(r.archiveId, s.archiveId);
    }
  }

  lemma KeyTransitive(r: Record, s: Record, t: Record)
    requires KeyLe(r, s) && KeyLe(s, t)
    ensures KeyLe(r, t)
  {
    LexTransitive(SortStamp(r), SortStamp(s), SortStamp(t));
    if SortStamp(r) == SortStamp(t) {
      LexAntisymmetric(SortStamp(r), SortStamp(s));
      LexTransitive(r.archiveId, s.archiveId, t.archiveId);
    }
  }

  /** The earlier timestamp comes first, as text; on equal timestamps the smaller id. */
  ghost predicate Precedes(r: Record, s: Record) {
    Before(SortStamp(r), SortStamp(s)) || (SortStamp(r) == SortStamp(s) && Before(r.archiveId, s.archiveId))
  }

  lemma KeyMeaning(r: Record, s: Record)
    ensures KeyLt(r, s) <==> Precedes(r, s)
  {
    LexMeaning(SortStamp(r), SortStamp(s));
    LexMeaning(r.archiveId, s.archiveId);
    LexMeaning(SortStamp(s), SortStamp(r));
    LexMeaning(s.archiveId, r.archiveId);
    KeyTotal(r, s);
    LexTotal(SortStamp(r), SortStamp(s));
    if LexLe(SortStamp(r), SortStamp(s)) && LexLe(SortStamp(s), SortStamp(r)) {
      LexAntisymmetric(SortStamp(r), SortStamp(s));
    }
    if LexLe(r.archiveId, s.archiveId) && LexLe(s.archiveId, r.archiveId) {
      LexAntisymmetric(r.archiveId, s.archiveId);
    }
  }

  // -------------------------------------------------------------------- sorting

  function Insert(r: Record, rs: seq<Record>): seq<Record> {
    if rs == [] || KeyLe(r, rs[0]) then [r] + rs else [rs[0]] + Insert(r, rs[1..])
  }

  /** `sorted` by the sort key: ascending and stable. */
  function Sorted(rs: seq<Record>): seq<Record> {
    if rs == [] then [] else Insert(rs[0], Sorted(rs[1..]))
  }

  lemma {:induction false} InsertBag(r: Record, rs: seq<Record>)
    ensures multiset(Insert(r, rs)) == multiset(rs) + multiset{r}
  {
    if rs != [] {
      assert rs == [rs[0]] + rs[1..];
      InsertBag(r, rs[1..]);
    }
  }

  lemma {:induction false} SortedBag(rs: seq<Record>)
    ensures multiset(Sorted(rs)) == multiset(rs)
  {
    if rs != [] {
      assert rs == [rs[0]] + rs[1..];
      SortedBag(rs[1..]);
      InsertBag(rs[0], Sorted(rs[1..]));
    }
  }

  ghost predicate Ascending(rs: seq<Record>) {
    forall i, j | 0 <= i < j < |rs| :: KeyLe(rs[i], rs[j])
  }

  ghost predicate StrictlyAscending(rs: seq<Record>) {
    forall i, j | 0 <= i < j < |rs| :: KeyLt(rs[i], rs[j])
  }

  lemma SortedMembers(rs: seq<Record>)
    ensures forall r :: r in Sorted(rs) <==> r in rs
    ensures |Sorted(rs)| == |rs|
  {
    SortedBag(rs);
    forall r ensures r in Sorted(rs) <==> r in rs {
      assert r in multiset(Sorted(rs)) <==> r in multiset(rs);
    }
    assert |multiset(Sorted(rs))| == |multiset(rs)|;
  }

  lemma InsertMembers(r: Record, rs: seq<Record>)
    ensures forall x :: x in Insert(r, rs) <==> x == r || x in rs
  {
    InsertBag(r, rs);
    forall x ensures x in Insert(r, rs) <==> x == r || x in rs {
      assert x in multiset(Insert(r, rs)) <==> x in multiset(rs) + multiset{r};
    }
  }

  lemma AscendingFrom(r: Record, rs: seq<Record>)
    requires Ascending(rs) && forall x | x in rs :: KeyLe(r, x)
    ensures Ascending([r] + rs)
  {
  }

  lemma {:induction false} InsertAscending(r: Record, rs: seq<Record>)
    requires Ascending(rs)
    ensures Ascending(Insert(r, rs))
  {
    if rs == [] {
    } else if KeyLe(r, rs[0]) {
      forall x | x in rs ensures KeyLe(r, x) {
        if x != rs[0] {
          KeyTransitive(r, rs[0], x);
        }
      }
      AscendingFrom(r, rs);
    } else {
      KeyTotal(r, rs[0]);
      InsertAscending(r, rs[1..]);
      InsertMembers(r, rs[1..]);
      AscendingFrom(rs[0], Insert(r, rs[1..]));
    }
  }

  lemma {:induction false} SortedAscending(rs: seq<Record>)
    ensures Ascending(Sorted(rs))
  {
    if rs != [] {
      SortedAscending(rs[1..]);
      InsertAscending(rs[0], Sorted(rs[1..]));
    }
  }

  // --------------------------------------------------------------------- output

  function Records(a: Archive): seq<Record> {
    seq(|a.order|, i requires 0 <= i < |a.order| => AssembleRecord(a.order[i], Lookup(a, a.order[i])))
  }

  function Output(a: Archive): seq<Record> {
    Sorted(Records(a))
  }

  function CountOf(rs: seq<Record>, status: Status): nat {
    if rs == [] then 0 else CountOf(rs[..|rs| - 1], status) + if rs[|rs| - 1].status == status then 1 else 0
  }

  lemma {:induction false} CountsAddUp(rs: seq<Record>)
    ensures CountOf(rs, Complete) + CountOf(rs, RequestOnly) + CountOf(rs, ResponseOnly) + CountOf(rs, Empty) == |rs|
  {
    if rs != [] {
      CountsAddUp(rs[..|rs| - 1]);
    }
  }

  lemma {:induction false} NoneOf(rs: seq<Record>, status: Status)
    requires forall r | r in rs :: r.status != status
    ensures CountOf(rs, status) == 0
  {
    if rs != [] {
      NoneOf(rs[..|rs| - 1], status);
    }
  }

  method Count(rs: seq<Record>, status: Status) returns (n: nat)
    ensures n == CountOf(rs, status)
  {
    n := 0;
    for i := 0 to |rs|
      invariant n == CountOf(rs[..i], status)
    {
      assert rs[..i + 1][..i] == rs[..i];
      if rs[i].status == status {
        n := n + 1;
      }
    }
    assert rs[..|rs|] == rs;
  }

  ghost predicate AllProper(es: seq<Entry>) {
    forall e | e in es :: Proper(e.reading)
  }

  lemma StatusOfKinds(es: seq<Entry>, id: string)
    requires AllProper(es) && id in Load(es).items
    ensures var r := AssembleRecord(id, Load(es).items[id]);
            && r.status == (if Borne(es, id, Request) && Borne(es, id, Response) then Complete
                            else if Borne(es, id, Request) then RequestOnly else ResponseOnly)
            && (Borne(es, id, Request) || Borne(es, id, Response))
  {
    GroupHolds(es, id);
    var item := Lookup(Load(es), id);
    assert Chosen(es, id, Request) == item.request && Chosen(es, id, Response) == item.response;
    var i := ChosenIsFinal(es, id, Request);
    var j := ChosenIsFinal(es, id, Response);
    assert item.request.Some? ==> es[i] in es && item.request.value != map[];
    assert item.response.Some? ==> es[j] in es && item.response.value != map[];
  }

  /** Some line of the files holds an object with the id and the type. */
  ghost predicate InLines(d: Decoder, files: seq<File>, id: string, text: string) {
    exists f, e, n | f in files && 0 <= n < |f.lines| :: Holds(d, f.lines[n], id, text, e)
  }

  lemma BorneInLines(d: Decoder, files: seq<File>, id: string)
    ensures Borne(Entries(d, files), id, Request) <==> InLines(d, files, id, "request")
    ensures Borne(Entries(d, files), id, Response) <==> InLines(d, files, id, "response")
  {
    var es := Entries(d, files);
    forall kind ensures Borne(es, id, kind) <==> InLines(d, files, id, TypeText(kind)) {
      if i :| 0 <= i < |es| && Bears(es[i], id, kind) {
        assert es[i] in es;
        var f, n := EntryInLines(d, files, es[i]);
        LineMeaning(d, f.lines[n]);
        assert Holds(d, f.lines[n], id, TypeText(kind), es[i].reading.event);
      }
      if f, e, n :| f in files && 0 <= n < |f.lines| && Holds(d, f.lines[n], id, TypeText(kind), e) {
        LineMeaning(d, f.lines[n]);
        LineInEntries(d, files, f, n);
        var i :| 0 <= i < |es| && es[i] == Entry(f.path, n + 1, ReadLine(d, f.lines[n]));
        assert Bears(es[i], id, kind);
      }
    }
  }

  /**
   * There is a record for an id exactly when some line holds a request or a response of it, and its status says which
   * of the two texts the lines hold; the empty status does not occur.
   */
  lemma StatusMeaning(d: Decoder, files: seq<File>, id: string)
    ensures var a, requested, answered := Load(Entries(d, files)), InLines(d, files, id, "request"), InLines(d, files, id, "response");
            && (id in a.items <==> requested || answered)
            && (id in a.items ==>
                  match AssembleRecord(id, a.items[id]).status
                  case Complete => requested && answered
                  case RequestOnly => requested && !answered
                  case ResponseOnly => !requested && answered
                  case Empty => false)
  {
    EntriesProper(d, files);
    BorneInLines(d, files, id);
    GroupHolds(Entries(d, files), id);
    if id in Load(Entries(d, files)).items {
      StatusOfKinds(Entries(d, files), id);
    }
  }

  /** The fields that the request fills, or the response when there is no request. */
  predicate SummaryFrom(r: Record, e: Event) {
    && r.requestTimestamp == Get(e, TIMESTAMP)
    && r.verb == Get(e, METHOD) && r.path == Get(e, PATH) && r.endpoint == Get(e, ENDPOINT) && r.model == Get(e, MODEL)
    && r.userId == Get(e, USER_ID) && r.apiKeyId == Get(e, API_KEY_ID) && r.groupId == Get(e, GROUP_ID)
    && r.clientIp == Get(e, CLIENT_IP) && r.userAgent == Get(e, USER_AGENT)
  }

  predicate RequestPart(r: Record, e: Option<Event>) {
    && r.request == e && (e.Some? ==> Strip(Shown(e.value, EVENT)) == "request")
    && r.requestBodySize == Get(Object(e), BODY_SIZE) && (r.requestBodyTruncated <==> Truthy(Get(Object(e), BODY_TRUNCATED)))
  }

  predicate ResponsePart(r: Record, e: Option<Event>) {
    && r.response == e && (e.Some? ==> Strip(Shown(e.value, EVENT)) == "response")
    && r.responseTimestamp == Get(Object(e), TIMESTAMP)
    && r.httpStatus == Get(Object(e), STATUS) && r.durationMs == Get(Object(e), DURATION_MS)
    && r.responseBodySize == Get(Object(e), BODY_SIZE) && (r.responseBodyTruncated <==> Truthy(Get(Object(e), BODY_TRUNCATED)))
  }

  /**
   * A record, field by field, from the final request `i` and the final response `j` of its id, where there are such.
   * It is sorted by the timestamp that grouping compares.
   */
  lemma RecordMeaning(es: seq<Entry>, id: string) returns (i: nat, j: nat)
    requires AllProper(es) && id in Load(es).items
    ensures Borne(es, id, Request) ==> i < |es| && Final(es, id, Request, i)
    ensures Borne(es, id, Response) ==> j < |es| && Final(es, id, Response, j)
    ensures var r := AssembleRecord(id, Load(es).items[id]);
            && r.sourceFiles == PathsOf(es, id)
            && match r.status
               case Complete =>
                 && Borne(es, id, Request) && Borne(es, id, Response)
                 && var request, response := es[i].reading.event, es[j].reading.event;
                 && SummaryFrom(r, request) && RequestPart(r, Some(request)) && ResponsePart(r, Some(response))
                 && r.accountId == (if Truthy(Get(response, ACCOUNT_ID)) then Get(response, ACCOUNT_ID) else Get(request, ACCOUNT_ID))
                 && SortStamp(r) == if Truthy(Get(request, TIMESTAMP)) then Stamp(request) else Stamp(response)
               case RequestOnly =>
                 && Borne(es, id, Request) && !Borne(es, id, Response)
                 && var request := es[i].reading.event;
                 && SummaryFrom(r, request) && RequestPart(r, Some(request)) && ResponsePart(r, None)
                 && r.accountId == Get(request, ACCOUNT_ID) && SortStamp(r) == Stamp(request)
               case ResponseOnly =>
                 && !Borne(es, id, Request) && Borne(es, id, Response)
                 && var response := es[j].reading.event;
                 && SummaryFrom(r, response) && RequestPart(r, None) && ResponsePart(r, Some(response))
                 && r.accountId == Get(response, ACCOUNT_ID) && SortStamp(r) == Stamp(response)
               case Empty => false
  {
    GroupHolds(es, id);
    StatusOfKinds(es, id);
    i := ChosenIsFinal(es, id, Request);
    j := ChosenIsFinal(es, id, Response);
    var item := Lookup(Load(es), id);
    assert Chosen(es, id, Request) == item.request && Chosen(es, id, Response) == item.response;
  }

  /** The output has one record for each id, and nothing else. */
  lemma OutputMembers(es: seq<Entry>)
    ensures forall r :: r in Output(Load(es)) <==> r.archiveId in Load(es).items && r == AssembleRecord(r.archiveId, Load(es).items[r.archiveId])
    ensures |Output(Load(es))| == |Load(es).order|
  {
    var a := Load(es);
    LoadKeys(es);
    SortedMembers(Records(a));
    forall r ensures r in Records(a) <==> r.archiveId in a.items && r == AssembleRecord(r.archiveId, a.items[r.archiveId]) {
      if r.archiveId in a.items && r == AssembleRecord(r.archiveId, a.items[r.archiveId]) {
        var i :| 0 <= i < |a.order| && a.order[i] == r.archiveId;
        assert Records(a)[i] == r;
      }
    }
  }

  lemma OutputNotEmpty(es: seq<Entry>)
    requires AllProper(es)
    ensures forall r | r in Output(Load(es)) :: r.status != Empty
  {
    OutputMembers(es);
    forall r | r in Output(Load(es)) ensures r.status != Empty {
      StatusOfKinds(es, r.archiveId);
    }
  }

  /** The counts that are reported cover all records. */
  lemma ReportedCounts(es: seq<Entry>)
    requires AllProper(es)
    ensures var rs := Output(Load(es));
            CountOf(rs, Complete) + CountOf(rs, RequestOnly) + CountOf(rs, ResponseOnly) == |rs|
  {
    OutputNotEmpty(es);
    CountsAddUp(Output(Load(es)));
    NoneOf(Output(Load(es)), Empty);
  }

  /** `main`, from the files' contents to the records, the warnings and the counts. */
  method AssembleArchive(d: Decoder, files: seq<File>)
    returns (records: seq<Record>, warnings: seq<Warning>, complete: nat, requestOnly: nat, responseOnly: nat)
    ensures records == Output(Load(Entries(d, files))) && warnings == Load(Entries(d, files)).warnings
    ensures complete == CountOf(records, Complete)
    ensures requestOnly == CountOf(records, RequestOnly) && responseOnly == CountOf(records, ResponseOnly)
    ensures complete + requestOnly + responseOnly == |records|
    ensures InOrder(records)
  {
    var a := LoadEvents(d, files);
    records, warnings := Sorted(Records(a)), a.warnings;
    complete := Count(records, Complete);
    requestOnly := Count(records, RequestOnly);
    responseOnly := Count(records, ResponseOnly);
    EntriesProper(d, files);
    ReportedCounts(Entries(d, files));
    OutputStrict(Entries(d, files));
  }

  // ------------------------------------------------------------- order of output

  ghost predicate DistinctIds(rs: seq<Record>) {
    forall i, j | 0 <= i < j < |rs| :: rs[i].archiveId != rs[j].archiveId
  }

  lemma DistinctFrom(r: Record, rs: seq<Record>)
    requires DistinctIds(rs) && forall x | x in rs :: x.archiveId != r.archiveId
    ensures DistinctIds([r] + rs)
  {
  }

  lemma {:induction false} InsertDistinct(r: Record, rs: seq<Record>)
    requires DistinctIds(rs) && forall x | x in rs :: x.archiveId != r.archiveId
    ensures DistinctIds(Insert(r, rs))
  {
    if rs == [] || KeyLe(r, rs[0]) {
      DistinctFrom(r, rs);
    } else {
      InsertDistinct(r, rs[1..]);
      InsertMembers(r, rs[1..]);
      DistinctFrom(rs[0], Insert(r, rs[1..]));
    }
  }

  lemma {:induction false} SortedDistinct(rs: seq<Record>)
    requires DistinctIds(rs)
    ensures DistinctIds(Sorted(rs))
  {
    if rs != [] {
      SortedDistinct(rs[1..]);
      SortedMembers(rs[1..]);
      InsertDistinct(rs[0], Sorted(rs[1..]));
    }
  }

  ghost predicate InOrder(rs: seq<Record>) {
    forall i, j | 0 <= i < j < |rs| :: Precedes(rs[i], rs[j])
  }

  /** The keys of the output strictly increase, timestamps before ids: the order is canonical. */
  lemma OutputStrict(es: seq<Entry>)
    ensures StrictlyAscending(Output(Load(es))) && InOrder(Output(Load(es)))
  {
    LoadKeys(es);
    var rs := Output(Load(es));
    SortedDistinct(Records(Load(es)));
    SortedAscending(Records(Load(es)));
    forall i, j | 0 <= i < j < |rs| ensures KeyLt(rs[i], rs[j]) && Precedes(rs[i], rs[j]) {
      KeyTotal(rs[i], rs[j]);
      KeyMeaning(rs[i], rs[j]);
    }
  }

  lemma NoMembers(rs: seq<Record>)
    ensures rs == [] <==> forall r :: r !in rs
  {
    assert rs != [] ==> rs[0] in rs;
  }

  /** Two strictly ascending sequences with the same members are equal. */
  lemma {:induction false} StrictUnique(rs: seq<Record>, ss: seq<Record>)
    requires StrictlyAscending(rs) && StrictlyAscending(ss)
    requires forall r :: r in rs <==> r in ss
    ensures rs == ss
  {
    NoMembers(rs);
    NoMembers(ss);
    if rs != [] {
      assert rs[0] in ss && ss[0] in rs;
      assert rs[0] == ss[0];
      forall r ensures r in rs[1..] <==> r in ss[1..] {
        assert r in rs <==> r == rs[0] || r in rs[1..];
        assert r in ss <==> r == ss[0] || r in ss[1..];
      }
      StrictUnique(rs[1..], ss[1..]);
    }
  }
}
