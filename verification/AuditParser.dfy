/** The line-oriented reader of the exception list. */
module AuditParser {
  import opened Basics
  import opened Strings

  type Entry = map<string, string>

  /** `key, value = line.split(":", 1)` raises when there is no colon. */
  datatype ParseError = NoColon(line: string)

  /** The position of the first colon; the length of the line if there is none. */
  function ColonAt(s: string): (k: nat)
    ensures k <= |s| && (k < |s| ==> s[k] == ':') && forall i | 0 <= i < k :: s[i] != ':'
  {
    if s == [] || s[0] == ':' then 0 else 1 + ColonAt(s[1..])
  }

  predicate QuotedBy(s: string, q: char) {
    s != [] && s[0] == q && s[|s| - 1] == q
  }

  /** `value[1:-1]` when the value is quoted; a lone quote becomes empty. */
  function Unquote(s: string): string {
    if QuotedBy(s, '"') || QuotedBy(s, '\'') then (if |s| < 2 then [] else s[1..|s| - 1]) else s
  }

  function SplitKeyValue(line: string): Result<(string, string), ParseError> {
    var k := ColonAt(line);
    if k == |line| then Err(NoColon(line)) else Ok((Strip(line[..k]), Unquote(Strip(line[k + 1..]))))
  }

  datatype Parser = Parser(done: seq<Entry>, current: Option<Entry>)

  /** Close the current entry; an entry without a field is dropped. */
  function Flush(p: Parser): seq<Entry> {
    if p.current.Some? && p.current.value != map[] then p.done + [p.current.value] else p.done
  }

  const VERSION: string := ['v', 'e', 'r', 's', 'i', 'o', 'n']
  const EXCEPTIONS: string := ['e', 'x', 'c', 'e', 'p', 't', 'i', 'o', 'n', 's']

  predicate Skipped(line: string) {
    line == [] || line[0] == '#' || VERSION + [':'] <= line || EXCEPTIONS + [':'] <= line
  }

  function Store(e: Entry, line: string): Result<Entry, ParseError> {
    match SplitKeyValue(line)
    case Err(error) => Err(error)
    case Ok((key, value)) => Ok(e[key := value])
  }

  function Step(p: Parser, raw: string): Result<Parser, ParseError> {
    var line := Strip(raw);
    if Skipped(line) then Ok(p)
    else if ['-', ' '] <= line then
      var field := Strip(line[2..]);
      if field == [] then Ok(Parser(Flush(p), Some(map[])))
      else
        match Store(map[], field)
        case Err(error) => Err(error)
        case Ok(e) => Ok(Parser(Flush(p), Some(e)))
    else if p.current.Some? && ':' in line then
      match Store(p.current.value, line)
      case Err(error) => Err(error)
      case Ok(e) => Ok(p.(current := Some(e)))
    else Ok(p)
  }

  function ParseFrom(p: Parser, lines: seq<string>): Result<Parser, ParseError>
    decreases lines
  {
    if lines == [] then Ok(p)
    else
      match Step(p, lines[0])
      case Err(error) => Err(error)
      case Ok(next) => ParseFrom(next, lines[1..])
  }

  function Parse(lines: seq<string>): Result<seq<Entry>, ParseError> {
    match ParseFrom(Parser([], None), lines)
    case Err(error) => Err(error)
    case Ok(p) => Ok(Flush(p))
  }

  lemma {:induction false} ParseAppend(p: Parser, a: seq<string>, b: seq<string>)
    ensures ParseFrom(p, a + b)
         == match ParseFrom(p, a) case Err(error) => Err(error) case Ok(q) => ParseFrom(q, b)
    decreases a
  {
    if a == [] {
      assert a + b == b;
    } else {
      assert (a + b)[1..] == a[1..] + b;
      if Step(p, a[0]).Ok? {
        ParseAppend(Step(p, a[0]).value, a[1..], b);
      }
    }
  }

  /** A line that opens an entry with a field that has no colon. */
  predicate Malformed(raw: string) {
    var line := Strip(raw);
    !Skipped(line) && ['-', ' '] <= line && Strip(line[2..]) != [] && ':' !in Strip(line[2..])
  }

  lemma NoColonIff(line: string)
    ensures SplitKeyValue(line).Err? <==> ':' !in line
  {
  }

  lemma StepFailsIff(p: Parser, raw: string)
    ensures Step(p, raw).Err? <==> Malformed(raw)
  {
    var line := Strip(raw);
    NoColonIff(line);
    if ['-', ' '] <= line {
      NoColonIff(Strip(line[2..]));
    }
  }

  /** Reading fails exactly when some line is malformed, whatever was read before it. */
  lemma {:induction false} ParseFailsIff(p: Parser, lines: seq<string>)
    ensures ParseFrom(p, lines).Err? <==> exists raw | raw in lines :: Malformed(raw)
    decreases lines
  {
    if lines != [] {
      StepFailsIff(p, lines[0]);
      assert forall raw :: raw in lines <==> raw == lines[0] || raw in lines[1..];
      if Step(p, lines[0]).Ok? {
        ParseFailsIff(Step(p, lines[0]).value, lines[1..]);
      }
    }
  }

  // ------------------------------------------------------------ lines that do not count

  /** White space around the lines does not matter. */
  lemma {:induction false} ParsePadded(p: Parser, a: seq<string>, b: seq<string>)
    requires |a| == |b| && forall i | 0 <= i < |a| :: Strip(a[i]) == Strip(b[i])
    ensures ParseFrom(p, a) == ParseFrom(p, b)
    decreases a
  {
    if a != [] {
      assert Step(p, a[0]) == Step(p, b[0]);
      if Step(p, a[0]).Ok? {
        ParsePadded(Step(p, a[0]).value, a[1..], b[1..]);
      }
    }
  }

  /** Blank lines, comments and the two section heads are skipped wherever they stand. */
  lemma ParseSkips(p: Parser, a: seq<string>, raw: string, b: seq<string>)
    requires var line := Strip(raw); line == "" || "#" <= line || "version:" <= line || "exceptions:" <= line
    ensures ParseFrom(p, a + [raw] + b) == ParseFrom(p, a + b)
  {
    assert VERSION + [':'] == "version:" && EXCEPTIONS + [':'] == "exceptions:";
    assert a + [raw] + b == a + ([raw] + b);
    assert ([raw] + b)[1..] == b;
    ParseAppend(p, a, [raw] + b);
    ParseAppend(p, a, b);
  }

  /** Before the first dash nothing is read, and within an entry a line without a colon is not. */
  lemma ParseIgnores(p: Parser, raw: string, b: seq<string>)
    requires !("- " <= Strip(raw)) && (p.current.None? || ':' !in Strip(raw))
    ensures ParseFrom(p, [raw] + b) == ParseFrom(p, b)
  {
    assert ['-', ' '] == "- ";
    assert ([raw] + b)[1..] == b;
  }

  /** `parse_exceptions` over the lines of the file. */
  method ParseExceptions(lines: seq<string>) returns (r: Result<seq<Entry>, ParseError>)
    ensures r.Err? <==> exists raw | raw in lines :: Malformed(raw)
    ensures r == Parse(lines)
  {
    ParseFailsIff(Parser([], None), lines);
    var exceptions: seq<Entry> := [];
    var current: Option<Entry> := None;
    for i := 0 to |lines|
      invariant ParseFrom(Parser([], None), lines) == ParseFrom(Parser(exceptions, current), lines[i..])
    {
      assert lines[i..][1..] == lines[i + 1..];
      var line := Strip(lines[i]);
      if Skipped(line) {
        continue;
      }
      if ['-', ' '] <= line {
        if current.Some? && current.value != map[] {
          exceptions := exceptions + [current.value];
        }
        current := Some(map[]);
        line := Strip(line[2..]);
        if line != [] {
          var kv := SplitKeyValue(line);
          if kv.Err? {
            return Err(kv.error);
          }
          current := Some(map[kv.value.0 := kv.value.1]);
        }
        continue;
      }
      if current.Some? && ':' in line {
        var kv := SplitKeyValue(line);
        if kv.Err? {
          return Err(kv.error);
        }
        current := Some(current.value[kv.value.0 := kv.value.1]);
      }
    }
    if current.Some? && current.value != map[] {
      exceptions := exceptions + [current.value];
    }
    return Ok(exceptions);
  }

  // ---------------------------------------------------------------- round trip

  /** A value is written as it is, or between single or double quotes. */
  datatype Style = Bare | Single | Double

  datatype Pair = Pair(key: string, value: string, style: Style)

  function Shown(p: Pair): string {
    match p.style
    case Bare => p.value
    case Single => ['\''] + p.value + ['\'']
    case Double => ['"'] + p.value + ['"']
  }

  /** `key: value`. */
  function RenderPair(p: Pair): string {
    p.key + [':'] + if Shown(p) == [] then [] else [' '] + Shown(p)
  }

  function RenderRest(ps: seq<Pair>): seq<string> {
    if ps == [] then [] else [RenderPair(ps[0])] + RenderRest(ps[1..])
  }

  function RenderEntry(ps: seq<Pair>): seq<string> {
    if ps == [] then [] else [['-', ' '] + RenderPair(ps[0])] + RenderRest(ps[1..])
  }

  function Render(entries: seq<seq<Pair>>): seq<string> {
    if entries == [] then [] else RenderEntry(entries[0]) + Render(entries[1..])
  }

  function AddPairs(e: Entry, ps: seq<Pair>): Entry
    decreases ps
  {
    if ps == [] then e else AddPairs(e[ps[0].key := ps[0].value], ps[1..])
  }

  function Entries(entries: seq<seq<Pair>>): seq<Entry> {
    seq(|entries|, i requires 0 <= i < |entries| => AddPairs(map[], entries[i]))
  }

  /** A key that survives: no colon, no white space around it. */
  predicate Key(k: string) {
    Solid(k) && ':' !in k
  }

  /** A value without quotes around it survives unless it has white space around it or looks quoted. */
  predicate Writable(p: Pair) {
    p.style == Bare ==> Solid(p.value) && !QuotedBy(p.value, '"') && !QuotedBy(p.value, '\'')
  }

  /** A key that may also stand at the start of a line. */
  predicate LineKey(k: string) {
    Key(k) && !(['#'] <= k) && !(['-', ' '] <= k) && k != VERSION && k != EXCEPTIONS
  }

  predicate Renderable(ps: seq<Pair>) {
    && ps != [] && Key(ps[0].key)
    && (forall i | 1 <= i < |ps| :: LineKey(ps[i].key))
    && (forall i | 0 <= i < |ps| :: Writable(ps[i]))
  }

  lemma ColonAfterKey(k: string, rest: string)
    requires ':' !in k
    ensures ColonAt(k + [':'] + rest) == |k|
  {
    var s := k + [':'] + rest;
    assert s[|k|] == ':';
    assert forall i | 0 <= i < |k| :: s[i] == k[i];
  }

  /** What is read of a value: a lone quote is nothing, quotes of one kind around it are dropped, anything else stays. */
  function ValueOf(v: string): string {
    if v == "\"" || v == "'" then ""
    else if |v| >= 2 && v[0] == v[|v| - 1] && (v[0] == '"' || v[0] == '\'') then v[1..|v| - 1]
    else v
  }

  /** A line with a colon: its key, and its value by how it is quoted, whatever white space is around the two. */
  lemma SplitMeaning(a: string, k: string, b: string, c: string, v: string, d: string)
    requires AllSpace(a) && AllSpace(b) && AllSpace(c) && AllSpace(d) && Key(k) && Solid(v)
    ensures SplitKeyValue(a + k + b + [':'] + (c + v + d)) == Ok((k, ValueOf(v)))
  {
    var left, right := a + k + b, c + v + d;
    var line := left + [':'] + right;
    assert forall i | 0 <= i < |left| :: left[i] != ':' by {
      forall i | 0 <= i < |left| ensures left[i] != ':' {
        assert left[i] == if i < |a| then a[i] else if i < |a| + |k| then k[i - |a|] else b[i - |a| - |k|];
      }
    }
    ColonAfterKey(left, right);
    assert line[..|left|] == left && line[|left| + 1..] == right;
    StripPadded(a, k, b);
    StripSolid(k);
    StripPadded(c, v, d);
    StripSolid(v);
  }

  lemma SplitClose(k: string, c: string, v: string)
    requires AllSpace(c) && Key(k) && Solid(v)
    ensures SplitKeyValue(k + [':'] + (c + v)) == Ok((k, ValueOf(v)))
  {
    SplitMeaning([], k, [], c, v, []);
    assert [] + k + [] == k && c + v + [] == c + v;
  }

  /** Any value comes back from its quoted form, quotes and colons inside included, and any other from itself. */
  lemma SplitRendered(p: Pair)
    requires Key(p.key) && Writable(p)
    ensures SplitKeyValue(RenderPair(p)) == Ok((p.key, p.value))
  {
    var space: string := if Shown(p) == [] then [] else [' '];
    ShownBack(p);
    SplitClose(p.key, space, Shown(p));
    assert RenderPair(p) == p.key + [':'] + (space + Shown(p));
  }

  lemma ShownBack(p: Pair)
    requires Writable(p)
    ensures Solid(Shown(p)) && ValueOf(Shown(p)) == p.value
  {
    assert p.style != Bare ==> |Shown(p)| == |p.value| + 2 && Shown(p)[1..|Shown(p)| - 1] == p.value;
  }

  lemma RenderedSolid(p: Pair)
    requires Key(p.key) && Writable(p)
    ensures Solid(RenderPair(p)) && RenderPair(p) != [] && Solid(['-', ' '] + RenderPair(p))
    ensures RenderPair(p)[0] == if p.key == [] then ':' else p.key[0]
  {
    var line := RenderPair(p);
    assert line[|line| - 1] == if Shown(p) == [] then ':' else Shown(p)[|Shown(p)| - 1];
  }

  /** A stripped line that starts with a dash opens an entry. */
  lemma DashedLine(p: Parser, field: string)
    requires field != [] && Solid(field) && Solid(['-', ' '] + field)
    ensures Step(p, ['-', ' '] + field)
         == match Store(map[], field) case Err(error) => Err(error) case Ok(e) => Ok(Parser(Flush(p), Some(e)))
  {
    var line := ['-', ' '] + field;
    StripSolid(line);
    StripSolid(field);
    assert line[2..] == field;
    assert (VERSION + [':'])[0] != line[0] && (EXCEPTIONS + [':'])[0] != line[0];
  }

  lemma FirstLine(p: Parser, pair: Pair)
    requires Key(pair.key) && Writable(pair)
    ensures Step(p, ['-', ' '] + RenderPair(pair)) == Ok(Parser(Flush(p), Some(map[pair.key := pair.value])))
  {
    SplitRendered(pair);
    RenderedSolid(pair);
    DashedLine(p, RenderPair(pair));
  }

  lemma KeywordLine(k: string, rest: string, word: string)
    requires ':' !in k && ':' !in word && word + [':'] <= k + [':'] + rest
    ensures k == word
  {
    ColonAfterKey(k, rest);
    var line := k + [':'] + rest;
    ColonAfterKey(word, line[|word| + 1..]);
    assert line == word + [':'] + line[|word| + 1..];
    assert line[..|k|] == k && line[..|word|] == word;
  }

  lemma NotSkipped(pair: Pair)
    requires LineKey(pair.key) && Writable(pair)
    ensures !Skipped(RenderPair(pair))
  {
    var rest: string := if Shown(pair) == [] then [] else [' '] + Shown(pair);
    RenderedSolid(pair);
    if VERSION + [':'] <= RenderPair(pair) { KeywordLine(pair.key, rest, VERSION); }
    if EXCEPTIONS + [':'] <= RenderPair(pair) { KeywordLine(pair.key, rest, EXCEPTIONS); }
    assert pair.key != [] && pair.key[0] == '#' ==> ['#'] <= pair.key;
  }

  lemma NotDashed(pair: Pair)
    requires LineKey(pair.key)
    ensures !(['-', ' '] <= RenderPair(pair)) && ':' in RenderPair(pair)
  {
    var line := RenderPair(pair);
    assert line[|pair.key|] == ':';
    assert forall i | 0 <= i < |pair.key| :: line[i] == pair.key[i];
  }

  lemma NextLine(p: Parser, pair: Pair)
    requires LineKey(pair.key) && Writable(pair) && p.current.Some?
    ensures Step(p, RenderPair(pair)) == Ok(p.(current := Some(p.current.value[pair.key := pair.value])))
  {
    SplitRendered(pair);
    RenderedSolid(pair);
    StripSolid(RenderPair(pair));
    NotSkipped(pair);
    NotDashed(pair);
  }

  lemma {:induction false} RestOfEntry(p: Parser, ps: seq<Pair>)
    requires p.current.Some? && forall i | 0 <= i < |ps| :: LineKey(ps[i].key) && Writable(ps[i])
    ensures ParseFrom(p, RenderRest(ps)) == Ok(p.(current := Some(AddPairs(p.current.value, ps))))
    decreases ps
  {
    if ps != [] {
      NextLine(p, ps[0]);
      RestOfEntry(p.(current := Some(p.current.value[ps[0].key := ps[0].value])), ps[1..]);
      assert RenderRest(ps)[1..] == RenderRest(ps[1..]);
    }
  }

  lemma WholeEntry(p: Parser, ps: seq<Pair>)
    requires Renderable(ps)
    ensures ParseFrom(p, RenderEntry(ps)) == Ok(Parser(Flush(p), Some(AddPairs(map[], ps))))
  {
    var q := Parser(Flush(p), Some(map[ps[0].key := ps[0].value]));
    FirstLine(p, ps[0]);
    RestOfEntry(q, ps[1..]);
    assert RenderEntry(ps)[1..] == RenderRest(ps[1..]);
    assert map[][ps[0].key := ps[0].value] == map[ps[0].key := ps[0].value];
  }

  lemma {:induction false} AddPairsNonEmpty(e: Entry, ps: seq<Pair>)
    requires ps != [] || e != map[]
    ensures AddPairs(e, ps) != map[]
    decreases ps
  {
    if ps != [] {
      assert ps[0].key in e[ps[0].key := ps[0].value];
      AddPairsNonEmpty(e[ps[0].key := ps[0].value], ps[1..]);
    }
  }

  ghost predicate ParsesTo(p: Parser, lines: seq<string>, es: seq<Entry>) {
    ParseFrom(p, lines).Ok? && Flush(ParseFrom(p, lines).value) == es
  }

  lemma OneMoreEntry(p: Parser, ps: seq<Pair>, lines: seq<string>, es: seq<Entry>)
    requires Renderable(ps)
    requires ParsesTo(Parser(Flush(p), Some(AddPairs(map[], ps))), lines, Flush(p) + [AddPairs(map[], ps)] + es)
    ensures ParsesTo(p, RenderEntry(ps) + lines, Flush(p) + [AddPairs(map[], ps)] + es)
  {
    WholeEntry(p, ps);
    ParseAppend(p, RenderEntry(ps), lines);
  }

  lemma EntriesFirst(entries: seq<seq<Pair>>)
    requires entries != []
    ensures Entries(entries) == [AddPairs(map[], entries[0])] + Entries(entries[1..])
  {
  }

  lemma {:induction false} EntriesRoundTrip(p: Parser, entries: seq<seq<Pair>>)
    requires forall i | 0 <= i < |entries| :: Renderable(entries[i])
    ensures ParsesTo(p, Render(entries), Flush(p) + Entries(entries))
    decreases entries
  {
    if entries == [] {
      assert Flush(p) + Entries(entries) == Flush(p);
    } else {
      EntriesRoundTrip(Parser(Flush(p), Some(AddPairs(map[], entries[0]))), entries[1..]);
      EntriesStep(p, entries);
    }
  }

  lemma EntriesStep(p: Parser, entries: seq<seq<Pair>>)
    requires entries != [] && Renderable(entries[0])
    requires var q := Parser(Flush(p), Some(AddPairs(map[], entries[0])));
             ParsesTo(q, Render(entries[1..]), Flush(q) + Entries(entries[1..]))
    ensures ParsesTo(p, Render(entries), Flush(p) + Entries(entries))
  {
    var e := AddPairs(map[], entries[0]);
    var rest := Entries(entries[1..]);
    AddPairsNonEmpty(map[], entries[0]);
    EntriesFirst(entries);
    assert Flush(Parser(Flush(p), Some(e))) == Flush(p) + [e];
    Reassociated(Flush(p), [e], rest);
    OneMoreEntry(p, entries[0], Render(entries[1..]), rest);
  }

  /** Writing non-empty entries, each pair bare or in either kind of quotes, and parsing them returns the same entries. */
  lemma ParseRoundTrip(entries: seq<seq<Pair>>)
    requires forall i | 0 <= i < |entries| :: Renderable(entries[i])
    ensures Parse(Render(entries)) == Ok(Entries(entries))
  {
    EntriesRoundTrip(Parser([], None), entries);
    assert [] + Entries(entries) == Entries(entries);
  }
}
