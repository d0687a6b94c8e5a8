/** What reading back a written legacy library returns, and what reading any text returns. */
module LegacyRoundTrip {
  import opened Collections
  import opened Ordering
  import opened PlayerIds
  import opened LegacyText

  /** The two characters a written line can end in before its line break are not white space. */
  predicate Sane(space: Spaces) { !space('=') && !space(')') }

  predicate Breaks(c: char) { c == '=' || c == '\r' || c == '\n' }

  predicate PlainName(space: Spaces, name: string) {
    name != "" && Tight(space, name) && Avoids(name, Breaks)
  }

  /** Names that a line can hold, and identifiers that reading does not cut. */
  predicate Plain(space: Spaces, library: Library) {
    forall e | e in library :: PlainName(space, e.name) && AllClean(Unique(space, e.ids))
  }

  predicate LeadsWithMark(library: Library) {
    library != [] && library[0].name != "" && library[0].name[0] == BYTE_ORDER_MARK
  }

  /** The library with, in each name, only the first identifier of each key, trimmed. */
  function Deduplicated(space: Spaces, library: Library): Library {
    if library == [] then []
    else [Entry(library[0].name, Unique(space, library[0].ids))] + Deduplicated(space, library[1..])
  }

  // ---- One line ----

  lemma {:induction false} BracketedCharacters(ids: seq<string>)
    requires AllClean(ids)
    ensures Avoids(Bracketed(ids), CarriageReturn) && Avoids(Bracketed(ids), LineFeed)
  {
    if ids != [] {
      assert ids[0] in ids && forall id | id in ids[1..] :: id in ids;
      BracketedCharacters(ids[1..]);
      assert Avoids(ids[0], CarriageReturn) && Avoids(ids[0], LineFeed) by { assert Clean(ids[0]); }
    }
  }

  lemma {:induction false} BracketedEnd(ids: seq<string>)
    requires ids != []
    ensures Bracketed(ids) != "" && Bracketed(ids)[|Bracketed(ids)| - 1] == ')'
  {
    if |ids| > 1 { BracketedEnd(ids[1..]); }
  }

  lemma {:induction false} ReturnsRemoved(line: string)
    requires Avoids(line, CarriageReturn)
    ensures WithoutReturns(line + "\r") == line
  {
    if line == "" {
      assert line + "\r" == "\r";
      assert WithoutReturns("\r"[1..]) == "";
    } else {
      assert (line + "\r")[1..] == line[1..] + "\r";
      ReturnsRemoved(line[1..]);
      assert line == [line[0]] + line[1..];
    }
  }

  lemma {:induction false} EntryAvoids(space: Spaces, e: Entry)
    requires PlainName(space, e.name) && AllClean(Unique(space, e.ids))
    ensures Avoids(EntryText(space, e), CarriageReturn) && Avoids(EntryText(space, e), LineFeed)
  {
    hide Unique;
    BracketedCharacters(Unique(space, e.ids));
  }

  lemma {:induction false} EntryTight(space: Spaces, e: Entry)
    requires Sane(space) && PlainName(space, e.name)
    ensures Tight(space, EntryText(space, e))
  {
    hide Unique;
    var ids := Unique(space, e.ids);
    if ids != [] { BracketedEnd(ids); }
  }

  /** The line written for an entry is read as the entry's name and its kept identifiers. */
  lemma {:induction false} EntryReadsBack(space: Spaces, e: Entry)
    requires Sane(space) && PlainName(space, e.name) && AllClean(Unique(space, e.ids))
    ensures ReadLine(space, EntryText(space, e) + "\r") == Named(e.name, Unique(space, e.ids))
  {
    hide Unique, Trim, Tokens, Find, Bracketed;
    var text, ids := EntryText(space, e), Unique(space, e.ids);
    EntryAvoids(space, e);
    ReturnsRemoved(text);
    EntryTight(space, e);
    TrimKeepsTight(space, text);
    FindAt(text, Equals, |e.name|);
    assert text[..|e.name|] == e.name && text[|e.name| + 1..] == Bracketed(ids);
    TrimKeepsTight(space, e.name);
    CleanReadsBack(ids);
  }

  // ---- All lines ----

  function EntryLines(space: Spaces, library: Library): seq<string> {
    if library == [] then [] else [EntryText(space, library[0]) + "\r"] + EntryLines(space, library[1..])
  }

  lemma {:induction false} LinesOfLine(line: string, rest: string)
    requires Avoids(line, LineFeed)
    ensures Lines(line + "\r\n" + rest) == [line + "\r"] + Lines(rest)
  {
    var text := line + "\r\n" + rest;
    FindAt(text, LineFeed, |line| + 1);
    assert text[..|line| + 1] == line + "\r" && text[|line| + 2..] == rest;
  }

  lemma {:induction false} LinesOfSerialized(space: Spaces, library: Library)
    requires Plain(space, library)
    ensures Lines(Serialize(space, library)) == EntryLines(space, library)
  {
    hide Lines, EntryText, PlainName, Unique, AllClean;
    if library == [] {
      NoLines();
    } else {
      assert library[0] in library;
      EntryAvoids(space, library[0]);
      LinesOfLine(EntryText(space, library[0]), Serialize(space, library[1..]));
      LinesOfSerialized(space, library[1..]);
    }
  }

  lemma {:induction false} NoLines()
    ensures Lines("") == []
  {}

  lemma {:induction false} AppendedFresh(values: seq<string>, ids: seq<string>)
    requires NoRepeats(values + ids)
    ensures Appended(values, ids) == values + ids
    decreases |ids|
  {
    if ids != [] {
      var all := values + ids;
      forall k | 0 <= k < |values| ensures values[k] != ids[0] {
        assert all[k] == values[k] && all[|values|] == ids[0];
      }
      assert (values + [ids[0]]) + ids[1..] == all;
      AppendedFresh(values + [ids[0]], ids[1..]);
    }
  }

  lemma {:induction false} UniqueHasNoRepeats(space: Spaces, ids: seq<string>)
    ensures NoRepeats(Unique(space, ids))
  {
    hide Kept, CanonicalKey, Trim;
    KeptIsWritten(space, ids, {});
    var kept := Unique(space, ids);
    forall i, j | 0 <= i < j < |kept| ensures kept[i] != kept[j] {
      assert CanonicalKey(space, kept[i]) != CanonicalKey(space, kept[j]);
    }
  }

  ghost predicate EndsBefore(done: Library, library: Library) {
    forall d, e | d in done && e in library :: Before(d.name, e.name)
  }

  lemma {:induction false} ReadsEntries(space: Spaces, done: Library, library: Library)
    requires Sane(space) && Plain(space, library) && InNameOrder(library) && EndsBefore(done, library)
    ensures ReadLines(space, done, EntryLines(space, library)) == Read(done + Deduplicated(space, library))
    decreases |library|
  {
    hide Unique, AllClean, EntryText, ReadLine, Put, IdsOf, PlainName, Sane, ReadLines, EntryLines, EndsBefore, InNameOrder,
      Plain, Deduplicated;
    if library == [] {
      NothingToRead(space, done);
    } else {
      var kept := Entry(library[0].name, Unique(space, library[0].ids));
      FirstReads(space, done, library);
      EndsBeforeNext(done, library, kept);
      RestIsPlain(space, library);
      FirstLineRead(space, done, library, kept);
      ReadsEntries(space, done + [kept], library[1..]);
      RestDeduplicated(space, done, library);
    }
  }

  /** The first line reads as an entry that goes to the end. */
  lemma {:induction false} FirstReads(space: Spaces, done: Library, library: Library)
    requires Sane(space) && Plain(space, library) && EndsBefore(done, library) && library != []
    ensures var name, ids := library[0].name, Unique(space, library[0].ids);
      && ReadLine(space, EntryText(space, library[0]) + "\r") == Named(name, ids)
      && Put(done, name, Appended(IdsOf(done, name), ids)) == done + [Entry(name, ids)]
  {
    hide Unique, AllClean, EntryText, ReadLine, Before, Put, PlainName, Sane, EndsBefore, Appended;
    var e := library[0];
    assert e in library;
    EntryReadsBack(space, e);
    UniqueHasNoRepeats(space, e.ids);
    assert [] + Unique(space, e.ids) == Unique(space, e.ids);
    AppendedFresh([], Unique(space, e.ids));
    FirstIsLater(done, library);
    PutAppends(done, e.name, Unique(space, e.ids));
  }

  lemma {:induction false} RestIsPlain(space: Spaces, library: Library)
    requires library != [] && Plain(space, library)
    ensures Plain(space, library[1..])
  {
    hide PlainName, AllClean, Unique;
  }

  lemma {:induction false} RestDeduplicated(space: Spaces, done: Library, library: Library)
    requires library != []
    ensures (done + [Entry(library[0].name, Unique(space, library[0].ids))]) + Deduplicated(space, library[1..]) ==
      done + Deduplicated(space, library)
  {
    hide Unique;
  }

  lemma {:induction false} NothingToRead(space: Spaces, done: Library)
    ensures ReadLines(space, done, EntryLines(space, [])) == Read(done + Deduplicated(space, []))
  {
    assert done + [] == done;
  }

  lemma {:induction false} FirstLineRead(space: Spaces, done: Library, library: Library, kept: Entry)
    requires library != [] && ReadLine(space, EntryText(space, library[0]) + "\r") == Named(kept.name, kept.ids)
    requires Put(done, kept.name, Appended(IdsOf(done, kept.name), kept.ids)) == done + [kept]
    ensures ReadLines(space, done, EntryLines(space, library)) == ReadLines(space, done + [kept], EntryLines(space, library[1..]))
  {
    hide ReadLine, EntryText, Put, Appended, IdsOf;
    var first := EntryText(space, library[0]) + "\r";
    assert EntryLines(space, library)[0] == first && EntryLines(space, library)[1..] == EntryLines(space, library[1..]);
  }

  lemma {:induction false} FirstIsLater(done: Library, library: Library)
    requires library != [] && EndsBefore(done, library)
    ensures forall d | d in done :: Before(d.name, library[0].name)
  {
    hide Before;
  }

  lemma {:induction false} EndsBeforeNext(done: Library, library: Library, kept: Entry)
    requires library != [] && kept.name == library[0].name
    requires InNameOrder(library) && EndsBefore(done, library)
    ensures InNameOrder(library[1..]) && EndsBefore(done + [kept], library[1..])
  {
    hide Before;
    forall d, e | d in done + [kept] && e in library[1..] ensures Before(d.name, e.name) {
      var k :| 0 <= k < |library[1..]| && library[1..][k] == e;
      assert library[k + 1] == e;
      if d !in done { assert d == kept && Before(library[0].name, library[k + 1].name); }
    }
    forall i, j | 0 <= i < j < |library[1..]| ensures Before(library[1..][i].name, library[1..][j].name) {
      assert library[i + 1] == library[1..][i] && library[j + 1] == library[1..][j];
    }
  }

  lemma {:induction false} PlainReadsBack(space: Spaces, library: Library)
    requires Sane(space) && InNameOrder(library)
    requires Plain(space, library) && !LeadsWithMark(library)
    ensures Parse(space, Serialize(space, library)) == Read(Deduplicated(space, library))
  {
    LinesOfSerialized(space, library);
    ReadsEntries(space, [], library);
    assert [] + Deduplicated(space, library) == Deduplicated(space, library);
    if library != [] { assert library[0] in library; }
  }

  // ---- What reading returns ----

  predicate Sound(space: Spaces, library: Library) {
    forall e | e in library :: PlainName(space, e.name) && AllClean(e.ids) && NoRepeats(e.ids)
  }

  predicate AllLines(lines: seq<string>) { forall line | line in lines :: Avoids(line, LineFeed) }

  lemma {:induction false} LinesAvoid(text: string)
    ensures AllLines(Lines(text))
    decreases |text|
  {
    hide Find, Lines, Avoids;
    if text == "" {
      NoLines();
    } else {
      var end := Find(text, LineFeed);
      assert Avoids(text[..end], LineFeed) by { FrontAvoids(text); }
      FirstLine(text);
      if end < |text| { LinesAvoid(text[end + 1..]); }
    }
  }

  lemma {:induction false} FrontAvoids(text: string)
    ensures Avoids(text[..Find(text, LineFeed)], LineFeed)
  {
    hide Find;
  }

  lemma {:induction false} FirstLine(text: string)
    requires text != ""
    ensures var end := Find(text, LineFeed);
      Lines(text) == [text[..end]] + if end == |text| then [] else Lines(text[end + 1..])
  {
    hide Find;
  }

  lemma {:induction false} NoReturns(line: string)
    ensures Avoids(WithoutReturns(line), CarriageReturn)
    ensures Avoids(line, LineFeed) ==> Avoids(WithoutReturns(line), LineFeed)
  {
    if line != "" { NoReturns(line[1..]); }
  }

  lemma {:induction false} LineIsPlain(space: Spaces, raw: string)
    requires Avoids(raw, LineFeed)
    ensures var line := ReadLine(space, raw); line.Named? ==> PlainName(space, line.name) && AllClean(line.ids)
  {
    hide Trim, Tokens;
    NoReturns(raw);
    var line := Trim(space, WithoutReturns(raw));
    TrimAvoids(space, WithoutReturns(raw), CarriageReturn);
    TrimAvoids(space, WithoutReturns(raw), LineFeed);
    var eq := Find(line, Equals);
    assert Avoids(line[..eq], Breaks);
    TrimAvoids(space, line[..eq], Breaks);
    TrimTwice(space, line[..eq]);
  }

  lemma {:induction false} PutMembers(library: Library, name: string, ids: seq<string>, e: Entry)
    requires e in Put(library, name, ids)
    ensures e in library || e == Entry(name, ids)
  {
    if library != [] && library[0].name != name && !TextLe(name, library[0].name) && e != library[0] {
      PutMembers(library[1..], name, ids, e);
    }
  }

  lemma {:induction false} IdsOfMember(library: Library, name: string)
    ensures IdsOf(library, name) == [] || Entry(name, IdsOf(library, name)) in library
  {
    if library != [] && library[0].name != name {
      IdsOfMember(library[1..], name);
    } else if library != [] {
      assert library[0] == Entry(name, library[0].ids);
    }
  }

  lemma {:induction false} AppendedIsSound(values: seq<string>, ids: seq<string>)
    requires AllClean(values) && NoRepeats(values) && AllClean(ids)
    ensures AllClean(Appended(values, ids)) && NoRepeats(Appended(values, ids))
    decreases |ids|
  {
    hide Clean;
    if ids != [] {
      assert ids[0] in ids;
      AppendedIsSound(if ids[0] in values then values else values + [ids[0]], ids[1..]);
    }
  }

  lemma {:induction false} PutIsSound(space: Spaces, library: Library, name: string, ids: seq<string>)
    requires Sound(space, library) && PlainName(space, name) && AllClean(ids)
    ensures Sound(space, Put(library, name, Appended(IdsOf(library, name), ids)))
  {
    hide PlainName, Put, Appended, IdsOf, Clean;
    IdsOfMember(library, name);
    AppendedIsSound(IdsOf(library, name), ids);
    var after := Put(library, name, Appended(IdsOf(library, name), ids));
    forall e | e in after ensures PlainName(space, e.name) && AllClean(e.ids) && NoRepeats(e.ids) {
      PutMembers(library, name, Appended(IdsOf(library, name), ids), e);
    }
  }

  lemma {:induction false} ReadingIsSound(space: Spaces, library: Library, lines: seq<string>)
    requires Sound(space, library) && InNameOrder(library) && AllLines(lines)
    ensures var reading := ReadLines(space, library, lines);
      reading.Read? ==> Sound(space, reading.library) && InNameOrder(reading.library)
    decreases |lines|
  {
    hide ReadLine, Put, Appended, IdsOf, Sound, InNameOrder, Avoids, PlainName, AllClean;
    if lines != [] {
      assert lines[0] in lines;
      LineIsPlain(space, lines[0]);
      match ReadLine(space, lines[0]) {
        case Skipped => ReadingIsSound(space, library, lines[1..]);
        case Bad(_) =>
        case Named(name, ids) =>
          PutIsSound(space, library, name, ids);
          PutKeepsOrder(library, name, Appended(IdsOf(library, name), ids));
          ReadingIsSound(space, Put(library, name, Appended(IdsOf(library, name), ids)), lines[1..]);
      }
    }
  }

  /** Whatever text is read, the names can stand in a line, the identifiers are words and none is
      there twice. */
  lemma {:induction false} ParsedIsSound(space: Spaces, text: string)
    ensures var reading := Parse(space, text);
      reading.Read? ==> Sound(space, reading.library) && InNameOrder(reading.library)
  {
    LinesAvoid(Content(text));
    ReadingIsSound(space, [], Lines(Content(text)));
  }

  // ---- Reading gathers every line ----

  /** The identifiers on all lines of a name, one line after the other. */
  function Gathered(space: Spaces, name: string, lines: seq<string>): seq<string> {
    if lines == [] then []
    else
      var line := ReadLine(space, lines[0]);
      (if line.Named? && line.name == name then line.ids else []) + Gathered(space, name, lines[1..])
  }

  predicate Mentioned(space: Spaces, name: string, lines: seq<string>) {
    exists line | line in lines :: ReadLine(space, line).Named? && ReadLine(space, line).name == name
  }

  predicate Failing(space: Spaces, lines: seq<string>) {
    exists line | line in lines :: ReadLine(space, line).Bad?
  }

  lemma {:induction false} AppendedTwice(values: seq<string>, a: seq<string>, b: seq<string>)
    ensures Appended(Appended(values, a), b) == Appended(values, a + b)
    decreases |a|
  {
    if a == [] {
      assert a + b == b;
    } else {
      assert (a + b)[1..] == a[1..] + b;
      AppendedTwice(if a[0] in values then values else values + [a[0]], a[1..], b);
    }
  }

  lemma {:induction false} MentionedFirst(space: Spaces, name: string, lines: seq<string>)
    requires lines != []
    ensures Mentioned(space, name, lines) <==> ReadLine(space, lines[0]) == Named(name, Gathered(space, name, lines[..1])) || Mentioned(space, name, lines[1..])
    ensures Failing(space, lines) <==> ReadLine(space, lines[0]).Bad? || Failing(space, lines[1..])
  {
    hide ReadLine;
    assert lines[..1] == [lines[0]] && Gathered(space, name, lines[..1][1..]) == [];
    assert lines[0] in lines;
    forall line ensures line in lines <==> line == lines[0] || line in lines[1..] {}
  }

  /** A text is refused exactly for a bad line; otherwise it has the names its lines mention, and
      a name has the identifiers of all its lines, each at its first place. */
  lemma {:induction false} ReadingGathers(space: Spaces, library: Library, lines: seq<string>, name: string)
    requires InNameOrder(library)
    ensures var reading := ReadLines(space, library, lines);
      && (reading.Read? <==> !Failing(space, lines))
      && (reading.Read? ==> IdsOf(reading.library, name) == Appended(IdsOf(library, name), Gathered(space, name, lines)))
      && (reading.Read? ==> (Names(reading.library, name) <==> Names(library, name) || Mentioned(space, name, lines)))
    decreases |lines|
  {
    hide ReadLine, Put, Appended, IdsOf, InNameOrder, Names, Mentioned, Failing;
    if lines == [] {
      AppendedNothing(IdsOf(library, name));
      NothingMentioned(space, name);
    } else {
      MentionedFirst(space, name, lines);
      match ReadLine(space, lines[0]) {
        case Skipped =>
          assert [] + Gathered(space, name, lines[1..]) == Gathered(space, name, lines[1..]);
          ReadingGathers(space, library, lines[1..], name);
        case Bad(_) =>
        case Named(n, ids) =>
          var values := Appended(IdsOf(library, n), ids);
          PutKeepsOrder(library, n, values);
          ReadingGathers(space, Put(library, n, values), lines[1..], name);
          IdsOfPut(library, n, values, name);
          NamesPut(library, n, values, name);
          AppendedTwice(IdsOf(library, n), ids, Gathered(space, name, lines[1..]));
          assert [] + Gathered(space, name, lines[1..]) == Gathered(space, name, lines[1..]);
          assert lines[..1] == [lines[0]] && Gathered(space, name, lines[..1][1..]) == [];
          assert ids + [] == ids;
      }
    }
  }

  lemma {:induction false} AppendedNothing(values: seq<string>)
    ensures Appended(values, []) == values
  {}

  lemma {:induction false} NothingMentioned(space: Spaces, name: string)
    ensures !Mentioned(space, name, []) && !Failing(space, [])
  {}

  // ---- The byte order mark ----

  lemma {:induction false} FindBefore(text: string, wanted: char -> bool, k: nat)
    requires k < |text| && wanted(text[k])
    ensures Find(text, wanted) <= k
  {}

  lemma {:induction false} OnOneSide(text: string, a: nat, b: nat, k: nat)
    requires a <= b <= |text| && k < |text|
    ensures a <= k < b || text[k] in text[..a] || text[k] in text[b..]
  {
    if k < a {
      assert text[..a][k] == text[k];
    } else if b <= k {
      assert text[b..][k - b] == text[k];
    }
  }

  /** A line cut short at its front names something shorter. */
  lemma {:induction false} CutLineIsShorter(space: Spaces, cut: string, k: nat)
    requires Sane(space) && Avoids(cut, CarriageReturn) && k < |cut| && cut[k] == '='
    ensures !ReadLine(space, cut + "\r").Skipped?
    ensures ReadLine(space, cut + "\r").Named? ==> |ReadLine(space, cut + "\r").name| <= k
  {
    hide Trim, Tokens, Find;
    ReturnsRemoved(cut);
    var a, b := TrimCuts(space, cut);
    OnOneSide(cut, a, b, k);
    var line := cut[a..b];
    assert line[k - a] == '=';
    FindBefore(line, Equals, k - a);
    var c, d := TrimCuts(space, line[..Find(line, Equals)]);
  }

  lemma {:induction false} NameStaysAway(space: Spaces, done: Library, library: Library, name: string)
    requires Sane(space) && Plain(space, library)
    requires !Names(done, name) && !Names(library, name)
    ensures var reading := ReadLines(space, done, EntryLines(space, library));
      reading.Read? ==> !Names(reading.library, name)
    decreases |library|
  {
    hide Unique, AllClean, EntryText, ReadLine, Put, IdsOf, PlainName, Names, Appended, Sane;
    if library != [] {
      var e := library[0];
      assert e in library;
      EntryReadsBack(space, e);
      NamesFirst(library, name);
      var values := Appended(IdsOf(done, e.name), Unique(space, e.ids));
      NamesPut(done, e.name, values, name);
      NameStaysAway(space, Put(done, e.name, values), library[1..], name);
    }
  }

  lemma {:induction false} LinesWithoutMark(space: Spaces, library: Library)
    requires Plain(space, library) && LeadsWithMark(library)
    ensures Lines(Content(Serialize(space, library))) == [EntryText(space, library[0])[1..] + "\r"] + EntryLines(space, library[1..])
  {
    hide Lines, Unique, AllClean, Bracketed;
    var text, rest := EntryText(space, library[0]), Serialize(space, library[1..]);
    assert library[0] in library;
    EntryAvoids(space, library[0]);
    assert Content(Serialize(space, library)) == text[1..] + "\r\n" + rest;
    LinesOfLine(text[1..], rest);
    LinesOfSerialized(space, library[1..]);
  }

  lemma {:induction false} FirstIsNoLater(space: Spaces, library: Library)
    requires library != [] && InNameOrder(library)
    ensures !Names(library[1..], library[0].name)
    ensures Names(Deduplicated(space, library), library[0].name)
  {
    hide TextLe, Unique;
    forall e | e in library[1..] ensures Before(library[0].name, e.name) {
      var k :| 0 <= k < |library[1..]| && library[1..][k] == e;
      assert library[k + 1] == e;
    }
    assert Deduplicated(space, library)[0].name == library[0].name;
  }

  lemma {:induction false} MarkIsLost(space: Spaces, library: Library)
    requires Sane(space) && InNameOrder(library) && Plain(space, library) && LeadsWithMark(library)
    ensures Parse(space, Serialize(space, library)) != Read(Deduplicated(space, library))
  {
    hide Lines, ReadLine, Unique, AllClean, InNameOrder, Names, Put, Serialize, Deduplicated;
    var e := library[0];
    assert e in library;
    LinesWithoutMark(space, library);
    var text := EntryText(space, e);
    EntryAvoids(space, e);
    assert text[1..][|e.name| - 1] == '=';
    CutLineIsShorter(space, text[1..], |e.name| - 1);
    FirstIsNoLater(space, library);
    var line, rest := ReadLine(space, text[1..] + "\r"), EntryLines(space, library[1..]);
    assert ([text[1..] + "\r"] + rest)[1..] == rest;
    if line.Named? {
      var values := Appended(IdsOf([], line.name), line.ids);
      NoNames(e.name);
      NamesPut([], line.name, values, e.name);
      NameStaysAway(space, Put([], line.name, values), library[1..], e.name);
    }
  }

  // ---- The round trip ----

  lemma {:induction false} DeduplicatedMember(space: Spaces, library: Library, e: Entry)
    requires e in library
    ensures Entry(e.name, Unique(space, e.ids)) in Deduplicated(space, library)
  {
    if e != library[0] { DeduplicatedMember(space, library[1..], e); }
  }

  /** Reading back a written library returns it with, for each name, one identifier of each key,
      exactly when its names can stand in a line, no kept identifier holds a delimiter, and the
      first name does not begin with a byte order mark. */
  lemma {:induction false} RoundTrip(space: Spaces, library: Library)
    requires Sane(space) && InNameOrder(library)
    ensures Parse(space, Serialize(space, library)) == Read(Deduplicated(space, library))
      <==> Plain(space, library) && !LeadsWithMark(library)
  {
    hide Parse, Serialize, Deduplicated, PlainName, AllClean, Unique, LeadsWithMark;
    if Parse(space, Serialize(space, library)) == Read(Deduplicated(space, library)) {
      ParsedIsSound(space, Serialize(space, library));
      forall e | e in library ensures PlainName(space, e.name) && AllClean(Unique(space, e.ids)) {
        DeduplicatedMember(space, library, e);
      }
      if LeadsWithMark(library) { MarkIsLost(space, library); }
    } else if Plain(space, library) && !LeadsWithMark(library) {
      PlainReadsBack(space, library);
    }
  }

  lemma {:induction false} CleanKeeps(space: Spaces, ids: seq<string>, seen: set<string>)
    requires AllClean(ids)
    ensures AllClean(Kept(space, ids, seen))
  {
    hide Trim, CanonicalKey;
    if ids != [] {
      assert ids[0] in ids && forall id | id in ids[1..] :: id in ids;
      CleanKeeps(space, ids[1..], seen);
      CleanKeeps(space, ids[1..], seen + {CanonicalKey(space, ids[0])});
      assert Clean(ids[0]);
      TrimAvoids(space, ids[0], Delimiter);
    }
  }

  lemma {:induction false} DeduplicatedTwice(space: Spaces, library: Library)
    ensures Deduplicated(space, Deduplicated(space, library)) == Deduplicated(space, library)
  {
    hide Unique;
    if library != [] {
      DeduplicatedTwice(space, library[1..]);
      UniqueTwice(space, library[0].ids);
      var again := Deduplicated(space, library);
      assert again[0] == Entry(library[0].name, Unique(space, library[0].ids)) && again[1..] == Deduplicated(space, library[1..]);
    }
  }

  lemma {:induction false} DeduplicatedNames(space: Spaces, library: Library)
    ensures |Deduplicated(space, library)| == |library|
    ensures forall i | 0 <= i < |library| :: Deduplicated(space, library)[i] == Entry(library[i].name, Unique(space, library[i].ids))
  {
    hide Unique;
    if library != [] { DeduplicatedNames(space, library[1..]); }
  }

  /** A file that was read settles: what is written for it reads back as one library from then on. */
  lemma {:induction false} ReadFileSettles(space: Spaces, text: string)
    requires Sane(space)
    ensures var reading := Parse(space, text);
      reading.Read? && !LeadsWithMark(reading.library) ==> Settles(space, reading.library)
  {
    hide Parse, Serialize, Deduplicated, PlainName, Unique, InNameOrder, LeadsWithMark;
    var reading := Parse(space, text);
    if reading.Read? && !LeadsWithMark(reading.library) {
      ParsedIsSound(space, text);
      SoundIsPlain(space, reading.library);
      PlainReadsBack(space, reading.library);
      var once := Deduplicated(space, reading.library);
      OnceIsPlain(space, reading.library);
      PlainReadsBack(space, once);
      DeduplicatedTwice(space, reading.library);
    }
  }

  predicate Settles(space: Spaces, library: Library) {
    var once := Deduplicated(space, library);
    && Parse(space, Serialize(space, library)) == Read(once)
    && Parse(space, Serialize(space, once)) == Read(once)
  }

  lemma {:induction false} SoundIsPlain(space: Spaces, library: Library)
    requires Sound(space, library)
    ensures Plain(space, library)
  {
    hide Kept, PlainName, AllClean;
    forall e | e in library ensures AllClean(Unique(space, e.ids)) {
      CleanKeeps(space, e.ids, {});
    }
  }

  lemma {:induction false} OnceIsPlain(space: Spaces, library: Library)
    requires Plain(space, library) && InNameOrder(library) && !LeadsWithMark(library)
    ensures Plain(space, Deduplicated(space, library)) && InNameOrder(Deduplicated(space, library))
    ensures !LeadsWithMark(Deduplicated(space, library))
  {
    hide Unique, PlainName, AllClean, Deduplicated, Before;
    DeduplicatedNames(space, library);
    var once := Deduplicated(space, library);
    forall e | e in once ensures PlainName(space, e.name) && AllClean(Unique(space, e.ids)) {
      var i :| 0 <= i < |once| && once[i] == e;
      assert library[i] in library;
      UniqueTwice(space, library[i].ids);
    }
  }
}
