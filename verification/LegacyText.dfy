/** The legacy library file: one line a name, each with the name's bracketed identifiers. */
module LegacyText {
  import opened Ordering
  import opened PlayerIds

  const BYTE_ORDER_MARK := '\U{FEFF}'

  datatype Entry = Entry(name: string, ids: seq<string>)

  /** A std::map from names to identifiers: its entries, in the order of their names. */
  type Library = seq<Entry>

  datatype Failure = MalformedLine | EmptyName

  datatype Reading = Read(library: Library) | Refused(failure: Failure)

  predicate Before(a: string, b: string) { TextLe(a, b) && a != b }

  predicate InNameOrder(library: Library) {
    forall i, j | 0 <= i < j < |library| :: Before(library[i].name, library[j].name)
  }

  predicate Names(library: Library, name: string) { exists e | e in library :: e.name == name }

  /** The identifiers of a name, none if the map lacks it. */
  function IdsOf(library: Library, name: string): seq<string> {
    if library == [] then []
    else if library[0].name == name then library[0].ids
    else IdsOf(library[1..], name)
  }

  function Put(library: Library, name: string, ids: seq<string>): Library {
    if library == [] then [Entry(name, ids)]
    else if library[0].name == name then [Entry(name, ids)] + library[1..]
    else if TextLe(name, library[0].name) then [Entry(name, ids)] + library
    else [library[0]] + Put(library[1..], name, ids)
  }

  // ---- The map ----

  lemma {:induction false} NamesFirst(library: Library, name: string)
    requires library != []
    ensures Names(library, name) <==> library[0].name == name || Names(library[1..], name)
  {
    if Names(library, name) && library[0].name != name {
      var e :| e in library && e.name == name;
      assert e in library[1..];
    }
    if library[0].name == name { assert library[0] in library; }
  }

  lemma {:induction false} NamesPut(library: Library, name: string, ids: seq<string>, other: string)
    ensures Names(Put(library, name, ids), other) <==> Names(library, other) || other == name
  {
    hide Names;
    var after := Put(library, name, ids);
    NamesFirst(after, other);
    if library == [] {
      NoNames(other);
      assert after[1..] == [];
    } else {
      NamesFirst(library, other);
      assert ([Entry(name, ids)] + library)[1..] == library;
      assert ([Entry(name, ids)] + library[1..])[1..] == library[1..];
      if library[0].name != name && !TextLe(name, library[0].name) {
        NamesPut(library[1..], name, ids, other);
        assert after[1..] == Put(library[1..], name, ids);
      }
    }
  }

  lemma {:induction false} NoNames(name: string)
    ensures !Names([], name)
  {}

  lemma {:induction false} IdsOfPut(library: Library, name: string, ids: seq<string>, other: string)
    requires InNameOrder(library)
    ensures IdsOf(Put(library, name, ids), other) == if other == name then ids else IdsOf(library, other)
  {
    hide TextLe, Before;
    if library != [] {
      IdsOfPut(library[1..], name, ids, other);
      assert ([Entry(name, ids)] + library)[1..] == library;
      assert ([Entry(name, ids)] + library[1..])[1..] == library[1..];
      assert ([library[0]] + Put(library[1..], name, ids))[1..] == Put(library[1..], name, ids);
    }
  }

  predicate AllAfter(name: string, library: Library) { forall e | e in library :: Before(name, e.name) }

  lemma {:induction false} OrderFirst(first: Entry, rest: Library)
    ensures InNameOrder([first] + rest) <==> AllAfter(first.name, rest) && InNameOrder(rest)
  {
    hide Before;
    var all := [first] + rest;
    assert all[1..] == rest;
    if InNameOrder(all) {
      forall e | e in rest ensures Before(first.name, e.name) {
        var k :| 0 <= k < |rest| && rest[k] == e;
        assert all[0] == first && all[k + 1] == e;
      }
      forall i, j | 0 <= i < j < |rest| ensures Before(rest[i].name, rest[j].name) {
        assert all[i + 1] == rest[i] && all[j + 1] == rest[j];
      }
    }
    if AllAfter(first.name, rest) && InNameOrder(rest) {
      forall i, j | 0 <= i < j < |all| ensures Before(all[i].name, all[j].name) {
        assert all[j] == rest[j - 1];
        if i > 0 { assert all[i] == rest[i - 1]; }
      }
    }
  }

  lemma {:induction false} AfterAll(name: string, first: Entry, rest: Library)
    requires Before(name, first.name) && AllAfter(first.name, rest)
    ensures AllAfter(name, [first] + rest)
  {
    hide TextLe;
    TextOrders();
  }

  lemma {:induction false} AfterPut(bound: string, library: Library, name: string, ids: seq<string>)
    requires AllAfter(bound, library) && Before(bound, name)
    ensures AllAfter(bound, Put(library, name, ids))
  {
    hide TextLe, Before;
    if library != [] { AfterPut(bound, library[1..], name, ids); }
  }

  /** The map stays ordered. */
  lemma {:induction false} PutKeepsOrder(library: Library, name: string, ids: seq<string>)
    requires InNameOrder(library)
    ensures InNameOrder(Put(library, name, ids))
  {
    hide TextLe, InNameOrder, AllAfter;
    if library == [] {
      OrderFirst(Entry(name, ids), []);
      assert [Entry(name, ids)] + [] == [Entry(name, ids)];
      NothingInOrder(name);
    } else {
      assert library == [library[0]] + library[1..];
      OrderFirst(library[0], library[1..]);
      OrderFirst(Entry(name, ids), library[1..]);
      OrderFirst(Entry(name, ids), library);
      if library[0].name != name {
        if TextLe(name, library[0].name) {
          AfterAll(name, library[0], library[1..]);
        } else {
          TextOrders();
          PutKeepsOrder(library[1..], name, ids);
          AfterPut(library[0].name, library[1..], name, ids);
          OrderFirst(library[0], Put(library[1..], name, ids));
        }
      }
    }
  }

  lemma {:induction false} NothingInOrder(name: string)
    ensures InNameOrder([]) && AllAfter(name, [])
  {}

  lemma {:induction false} PutAppends(library: Library, name: string, ids: seq<string>)
    requires forall e | e in library :: Before(e.name, name)
    ensures Put(library, name, ids) == library + [Entry(name, ids)] && IdsOf(library, name) == []
  {
    hide TextLe;
    if library != [] {
      PutAppends(library[1..], name, ids);
      TextOrders();
      assert library[0] in library;
      assert library == [library[0]] + library[1..];
    }
  }

  // ---- Reading ----

  predicate Equals(c: char) { c == '=' }

  predicate LineFeed(c: char) { c == '\n' }

  predicate CarriageReturn(c: char) { c == '\r' }

  function WithoutReturns(line: string): string {
    if line == "" then "" else (if line[0] == '\r' then "" else [line[0]]) + WithoutReturns(line[1..])
  }

  /** What std::getline cuts a text into. */
  function Lines(text: string): seq<string>
    decreases |text|
  {
    if text == "" then []
    else
      var end := Find(text, LineFeed);
      [text[..end]] + if end == |text| then [] else Lines(text[end + 1..])
  }

  /** The values with the identifiers they lack appended. */
  function Appended(values: seq<string>, ids: seq<string>): seq<string>
    decreases |ids|
  {
    if ids == [] then values
    else Appended(if ids[0] in values then values else values + [ids[0]], ids[1..])
  }

  datatype Line = Skipped | Bad(failure: Failure) | Named(name: string, ids: seq<string>)

  function ReadLine(space: Spaces, raw: string): Line {
    var line := Trim(space, WithoutReturns(raw));
    if line == "" then Skipped
    else
      var eq := Find(line, Equals);
      if eq == |line| then
        if line[0] == ';' || line[0] == '[' then Skipped else Bad(MalformedLine)
      else
        var name := Trim(space, line[..eq]);
        if name == "" then Bad(EmptyName) else Named(name, Tokens(line[eq + 1..]))
  }

  function ReadLines(space: Spaces, library: Library, lines: seq<string>): Reading
    decreases |lines|
  {
    if lines == [] then Read(library)
    else
      match ReadLine(space, lines[0])
      case Skipped => ReadLines(space, library, lines[1..])
      case Bad(failure) => Refused(failure)
      case Named(name, ids) => ReadLines(space, Put(library, name, Appended(IdsOf(library, name), ids)), lines[1..])
  }

  function Content(text: string): string {
    if text != "" && text[0] == BYTE_ORDER_MARK then text[1..] else text
  }

  function Parse(space: Spaces, text: string): Reading { ReadLines(space, [], Lines(Content(text))) }

  method RemoveReturns(line: string) returns (r: string)
    ensures r == WithoutReturns(line)
  {
    r := "";
    assert line[0..] == line;
    for i := 0 to |line|
      invariant r + WithoutReturns(line[i..]) == WithoutReturns(line)
    {
      assert line[i..][1..] == line[i + 1..];
      if line[i] != '\r' { r := r + [line[i]]; }
    }
  }

  method AppendNew(before: seq<string>, ids: seq<string>) returns (values: seq<string>)
    ensures values == Appended(before, ids)
  {
    values := before;
    assert ids[0..] == ids;
    for i := 0 to |ids|
      invariant Appended(values, ids[i..]) == Appended(before, ids)
    {
      assert ids[i..][1..] == ids[i + 1..];
      if ids[i] !in values { values := values + [ids[i]]; }
    }
  }

  method ReadOne(space: Spaces, raw: string) returns (line: Line)
    ensures line == ReadLine(space, raw)
  {
    hide Trim, Find, Tokens, WithoutReturns;
    var text := RemoveReturns(raw);
    text := Trim(space, text);
    if text == "" { return Skipped; }
    var eq := Find(text, Equals);
    if eq == |text| {
      return if text[0] == ';' || text[0] == '[' then Skipped else Bad(MalformedLine);
    }
    var name := Trim(space, text[..eq]);
    if name == "" { return Bad(EmptyName); }
    var ids := ParseIds(text[eq + 1..]);
    line := Named(name, ids);
  }

  method ParseLegacy(space: Spaces, text: string) returns (reading: Reading)
    ensures reading == Parse(space, text)
  {
    hide ReadLine, Find, Put, IdsOf, Appended, Lines, ReadLines, Content;
    var content := Content(text);
    var library: Library := [];
    var pos := 0;
    assert content[0..] == content;
    while pos < |content|
      invariant pos <= |content|
      invariant ReadLines(space, library, Lines(content[pos..])) == Parse(space, text)
      decreases |content| - pos
    {
      var rest := content[pos..];
      var end := Find(rest, LineFeed);
      var line := ReadOne(space, rest[..end]);
      var next := if end == |rest| then |content| else pos + end + 1;
      LinesStep(rest);
      RestOfRest(content, pos, end);
      ReadLinesStep(space, library, rest[..end], Lines(content[next..]));
      pos := next;
      match line {
        case Skipped =>
        case Bad(failure) => return Refused(failure);
        case Named(name, ids) =>
          var values := AppendNew(IdsOf(library, name), ids);
          library := Put(library, name, values);
      }
    }
    assert content[pos..] == "";
    NothingLeft(space, library);
    reading := Read(library);
  }

  lemma {:induction false} RestOfRest(content: string, pos: nat, end: nat)
    requires pos <= |content| && end <= |content| - pos
    ensures content[pos..][if end == |content| - pos then end else end + 1..] ==
      content[if end == |content| - pos then |content| else pos + end + 1..]
  {
  }

  lemma {:induction false} ReadLinesStep(space: Spaces, library: Library, raw: string, rest: seq<string>)
    ensures ReadLines(space, library, [raw] + rest) ==
      match ReadLine(space, raw)
      case Skipped => ReadLines(space, library, rest)
      case Bad(failure) => Refused(failure)
      case Named(name, ids) => ReadLines(space, Put(library, name, Appended(IdsOf(library, name), ids)), rest)
  {
    hide ReadLine, Put, IdsOf, Appended;
    assert ([raw] + rest)[1..] == rest;
  }

  lemma {:induction false} NothingLeft(space: Spaces, library: Library)
    ensures ReadLines(space, library, Lines("")) == Read(library)
  {
  }

  lemma {:induction false} LinesStep(text: string)
    requires text != ""
    ensures Lines(text) == [text[..Find(text, LineFeed)]] + Lines(text[if Find(text, LineFeed) == |text| then |text| else Find(text, LineFeed) + 1..])
  {
    hide Find;
  }

  // ---- Writing ----

  function EntryText(space: Spaces, e: Entry): string { e.name + "=" + Bracketed(Unique(space, e.ids)) }

  function Serialize(space: Spaces, library: Library): string {
    if library == [] then ""
    else EntryText(space, library[0]) + "\r\n" + Serialize(space, library[1..])
  }

  method SerializeLegacy(space: Spaces, library: Library) returns (result: string)
    ensures result == Serialize(space, library)
  {
    result := "";
    assert library[0..] == library;
    for i := 0 to |library|
      invariant result + Serialize(space, library[i..]) == Serialize(space, library)
    {
      assert library[i..][1..] == library[i + 1..];
      var ids := FormatIds(space, library[i].ids);
      var line := library[i].name + "=" + ids;
      assert line == EntryText(space, library[i]);
      result := result + (line + "\r\n");
    }
  }
}
