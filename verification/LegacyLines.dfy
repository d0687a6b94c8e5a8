/** What the lines of a legacy file mean, told by their characters. */
module LegacyLines {
  import opened Ordering
  import opened PlayerIds
  import opened LegacyText
  import opened LegacyRoundTrip

  // ---- Where characters stand ----

  lemma {:induction false} StandsBefore(text: string, p: nat, q: nat)
    ensures p < q <= |text| ==> text[p] in text[..q]
  {
    if p < q <= |text| { assert text[..q][p] == text[p]; }
  }

  lemma {:induction false} StandsBehind(text: string, p: nat, q: nat)
    ensures q <= p < |text| ==> text[p] in text[q..]
  {
    if q <= p < |text| { assert text[q..][p - q] == text[p]; }
  }

  lemma {:induction false} StandsInFront(front: string, rest: string, p: nat)
    ensures p < |front| ==> (front + rest)[p] in front
  {
    if p < |front| { assert (front + rest)[p] == front[p]; }
  }

  // ---- Cutting off white space ----

  lemma {:induction false} CharacterAt(space: Spaces, a: string, m: string, e: string, k: nat)
    requires k < |a| + |m| + |e| && AllSpace(space, a) && AllSpace(space, e)
    ensures k < |a| || k >= |a| + |m| ==> space((a + m + e)[k])
    ensures |a| <= k < |a| + |m| ==> (a + m + e)[k] == m[k - |a|]
  {
    if k < |a| { assert (a + m + e)[k] == a[k] && a[k] in a; }
    if k >= |a| + |m| { assert (a + m + e)[k] == e[k - |a| - |m|] && e[k - |a| - |m|] in e; }
  }

  /** What is left between white space is what stands between the white space. */
  lemma {:induction false} TrimIs(space: Spaces, a: string, m: string, e: string)
    requires AllSpace(space, a) && AllSpace(space, e) && Tight(space, m)
    ensures Trim(space, a + m + e) == m
  {
    hide Trim;
    var text := a + m + e;
    var i, j := TrimCuts(space, text);
    if i < j {
      assert text[i..j][0] == text[i] && text[i..j][j - i - 1] == text[j - 1];
      CharacterAt(space, a, m, e, i);
      CharacterAt(space, a, m, e, j - 1);
    }
    if m != "" {
      CharacterAt(space, a, m, e, |a|);
      CharacterAt(space, a, m, e, |a| + |m| - 1);
      StandsBefore(text, |a|, i);
      StandsBehind(text, |a| + |m| - 1, j);
      MiddleOf(a, m, e);
    }
  }

  lemma {:induction false} MiddleOf(a: string, m: string, e: string)
    ensures (a + m + e)[|a|..|a| + |m|] == m
  {
  }

  // ---- The kinds of lines ----

  /** A character that is neither white space nor a carriage return. */
  predicate Visible(space: Spaces, c: char) { c != '\r' && !space(c) }

  predicate Blank(space: Spaces, text: string) { forall c | c in text :: !Visible(space, c) }

  /** The first visible character begins a comment or a section. */
  predicate Remark(space: Spaces, raw: string) {
    exists p :: 0 <= p < |raw| && Visible(space, raw[p]) && Blank(space, raw[..p]) && (raw[p] == ';' || raw[p] == '[')
  }

  lemma {:induction false} WithoutReturnsOf(raw: string, p: nat)
    requires p <= |raw|
    ensures WithoutReturns(raw) == WithoutReturns(raw[..p]) + WithoutReturns(raw[p..])
  {
    if p > 0 {
      WithoutReturnsOf(raw[1..], p - 1);
      assert raw[..p][0] == raw[0] && raw[..p][1..] == raw[1..][..p - 1] && raw[p..] == raw[1..][p - 1..];
    } else {
      assert raw[..0] == "" && raw[0..] == raw;
    }
  }

  lemma {:induction false} KeptCharacters(raw: string)
    ensures forall c :: c in WithoutReturns(raw) <==> c in raw && c != '\r'
  {
    if raw != "" {
      KeptCharacters(raw[1..]);
      assert raw == [raw[0]] + raw[1..];
    }
  }

  lemma {:induction false} BlankTrims(space: Spaces, raw: string)
    ensures Trim(space, WithoutReturns(raw)) == "" <==> Blank(space, raw)
  {
    hide Trim, WithoutReturns;
    KeptCharacters(raw);
    var line := WithoutReturns(raw);
    var a, b := TrimCuts(space, line);
    if a < b {
      assert line[a..b][0] == line[a] && line[a] in line;
    } else {
      assert line == line[..a] + line[b..];
    }
  }

  /** The line begins with its first visible character. */
  lemma {:induction false} BeginsVisibly(space: Spaces, raw: string, p: nat)
    requires p < |raw| && Visible(space, raw[p]) && Blank(space, raw[..p])
    ensures Trim(space, WithoutReturns(raw)) != "" && Trim(space, WithoutReturns(raw))[0] == raw[p]
  {
    hide Trim;
    WithoutReturnsOf(raw, p);
    KeptCharacters(raw[..p]);
    var front, rest := WithoutReturns(raw[..p]), WithoutReturns(raw[p..]);
    assert rest[0] == raw[p];
    var line := front + rest;
    var a, b := TrimCuts(space, line);
    StandsBefore(line, |front|, a);
    StandsBehind(line, |front|, b);
    StandsInFront(front, rest, a);
    assert line[a..b] != "" ==> line[a..b][0] == line[a];
  }

  lemma {:induction false} FirstVisible(space: Spaces, raw: string) returns (p: nat)
    requires !Blank(space, raw)
    ensures p < |raw| && Visible(space, raw[p]) && Blank(space, raw[..p])
  {
    if Visible(space, raw[0]) {
      p := 0;
    } else {
      assert raw == [raw[0]] + raw[1..];
      p := FirstVisible(space, raw[1..]);
      assert raw[..p + 1] == [raw[0]] + raw[1..][..p];
      p := p + 1;
    }
  }

  lemma {:induction false} EqualsStays(space: Spaces, raw: string)
    requires Sane(space)
    ensures '=' in Trim(space, WithoutReturns(raw)) <==> '=' in raw
  {
    hide Trim, WithoutReturns;
    KeptCharacters(raw);
    var line := WithoutReturns(raw);
    var a, b := TrimCuts(space, line);
    assert line == line[..a] + line[a..b] + line[b..];
  }

  lemma {:induction false} FindsEquals(line: string)
    ensures Find(line, Equals) == |line| <==> '=' !in line
  {
    var k := Find(line, Equals);
    if k < |line| { assert line[k] in line; }
    if '=' in line { var i :| 0 <= i < |line| && line[i] == '='; }
  }

  /** A line is skipped exactly if nothing is visible on it, or it has no equals sign and begins with a
      semicolon or a bracket; a line without an equals sign that begins otherwise is an error. */
  lemma {:induction false} SkippedExactly(space: Spaces, raw: string)
    requires Sane(space)
    ensures ReadLine(space, raw).Skipped? <==> Blank(space, raw) || ('=' !in raw && Remark(space, raw))
    ensures ReadLine(space, raw) == Bad(MalformedLine) <==> !Blank(space, raw) && '=' !in raw && !Remark(space, raw)
  {
    hide Trim, WithoutReturns, Tokens;
    var line := Trim(space, WithoutReturns(raw));
    BlankTrims(space, raw);
    EqualsStays(space, raw);
    FindsEquals(line);
    if !Blank(space, raw) {
      var p := FirstVisible(space, raw);
      BeginsVisibly(space, raw, p);
      forall q | 0 <= q < |raw| && Visible(space, raw[q]) && Blank(space, raw[..q]) ensures q == p { OneFirst(space, raw, p, q); }
    }
  }

  lemma {:induction false} OneFirst(space: Spaces, raw: string, p: nat, q: nat)
    requires p < |raw| && q < |raw| && Visible(space, raw[p]) && Visible(space, raw[q])
    requires Blank(space, raw[..p]) && Blank(space, raw[..q])
    ensures p == q
  {
    StandsBefore(raw, p, q);
    StandsBefore(raw, q, p);
  }

  lemma {:induction false} NoEquals(space: Spaces, text: string)
    requires Sane(space) && AllSpace(space, text)
    ensures '=' !in text
  {
  }

  lemma {:induction false} LineCut(space: Spaces, front: string, named: string, list: string, e: string)
    requires AllSpace(space, front) && AllSpace(space, e) && '=' !in named && Tight(space, named + "=" + list)
    requires '\r' !in front + (named + "=" + list) + e
    ensures ReadLine(space, front + (named + "=" + list) + e) ==
      if Trim(space, named) == "" then Bad(EmptyName) else Named(Trim(space, named), Tokens(list))
  {
    hide Trim, WithoutReturns, Tokens, Tight, Find;
    var middle := named + "=" + list;
    NoReturnsIn(front + middle + e);
    TrimIs(space, front, middle, e);
    FindAt(middle, Equals, |named|);
    assert middle[|named| + 1..] == list && middle[..|named|] == named;
  }

  lemma {:induction false} TightWhole(space: Spaces, name: string, b: string, list: string)
    requires Tight(space, name) && name != "" && Tight(space, "=" + list)
    ensures Tight(space, name + b + "=" + list)
  {
    var whole := name + b + "=" + list;
    assert whole[|whole| - 1] == ("=" + list)[|list|];
  }

  /** A line of a name, an equals sign and a list, with white space anywhere around, has that name and the
      identifiers of that list; without a name it is an error. */
  lemma {:induction false} LineMeans(space: Spaces, a: string, name: string, b: string, list: string, e: string)
    requires AllSpace(space, a) && AllSpace(space, b) && AllSpace(space, e) && Tight(space, name)
    requires Sane(space) && '\r' !in a + name + b + "=" + list + e && '=' !in name && Tight(space, "=" + list)
    ensures ReadLine(space, a + name + b + "=" + list + e) ==
      if name == "" then Bad(EmptyName) else Named(name, Tokens(list))
  {
    hide Trim, ReadLine, Tokens, Tight;
    NoEquals(space, b);
    TrimIs(space, "", name, if name == "" then "" else b);
    if name == "" {
      assert "" + "=" + list == "=" + list && "" + "" + "" == "";
      assert a + name + b + "=" + list + e == (a + b) + ("" + "=" + list) + e;
      LineCut(space, a + b, "", list, e);
    } else {
      TightWhole(space, name, b, list);
      assert "" + name + b == name + b;
      assert a + name + b + "=" + list + e == a + ((name + b) + "=" + list) + e;
      LineCut(space, a, name + b, list, e);
    }
  }

  lemma {:induction false} NoReturnsIn(raw: string)
    requires '\r' !in raw
    ensures WithoutReturns(raw) == raw
  {
    if raw != "" {
      assert raw == [raw[0]] + raw[1..] && raw[0] in raw;
      NoReturnsIn(raw[1..]);
    }
  }

  /** What a further line of a name adds stands behind what there was, and nothing is lost. */
  lemma {:induction false} AppendedHasAll(values: seq<string>, ids: seq<string>)
    ensures values <= Appended(values, ids)
    ensures forall id :: id in Appended(values, ids) <==> id in values || id in ids
    decreases |ids|
  {
    if ids != [] {
      AppendedHasAll(if ids[0] in values then values else values + [ids[0]], ids[1..]);
      assert ids == [ids[0]] + ids[1..];
    }
  }

  // ---- The lines of a text ----

  function Joined(lines: seq<string>): string {
    if lines == [] then "" else if |lines| == 1 then lines[0] else lines[0] + "\n" + Joined(lines[1..])
  }

  lemma {:induction false} JoinedFirst(first: string, rest: seq<string>)
    ensures Joined([first] + rest) == if rest == [] then first else first + "\n" + Joined(rest)
  {
    assert ([first] + rest)[1..] == rest;
  }

  /** Put together again the lines are the text, but for a line feed at its end. */
  lemma {:induction false} LinesAreText(text: string)
    ensures Joined(Lines(text)) == text || Joined(Lines(text)) + "\n" == text
    ensures text != "" ==> Lines(text) != []
    decreases |text|
  {
    hide Find, Lines, Joined;
    NoLines();
    NothingJoined();
    if text != "" {
      FirstLine(text);
      var end := Find(text, LineFeed);
      var first := text[..end];
      if end < |text| {
        var rest := text[end + 1..];
        assert text == first + "\n" + rest;
        LinesAreText(rest);
        JoinedFirst(first, Lines(rest));
      } else {
        assert first == text;
        JoinedFirst(first, []);
      }
    }
  }

  lemma {:induction false} NothingJoined()
    ensures Joined([]) == ""
  {
  }

  // ---- The comparison key ----

  lemma {:induction false} KeyCut(space: Spaces, text: string, name: string, b: string, sharp: char, behind: string)
    requires Trim(space, text) == name + b + [sharp] + behind && Trim(space, name + b) == name && name != ""
    requires Sharp(sharp) && Avoids(name + b, Sharp)
    ensures CanonicalKey(space, text) == name + [KEY_SEPARATOR] + Trim(space, behind)
  {
    hide Trim, Find;
    var raw, k := name + b + [sharp] + behind, |name + b|;
    assert raw[k] == sharp && forall i | 0 <= i < k :: raw[i] == (name + b)[i];
    FindAt(raw, Sharp, k);
    assert raw[..k] == name + b && raw[k + 1..] == behind;
  }

  lemma {:induction false} AvoidsSharps(space: Spaces, name: string, b: string)
    requires AllSpace(space, b) && !space('#') && !space('\U{FF03}') && '#' !in name && '\U{FF03}' !in name
    ensures Avoids(name + b, Sharp)
  {
    forall i | 0 <= i < |name + b| ensures !Sharp((name + b)[i]) {
      assert (name + b)[i] in name || (name + b)[i] in b;
    }
  }

  lemma {:induction false} TightToSharp(space: Spaces, name: string, b: string, sharp: char, behind: string)
    requires Tight(space, name) && name != "" && !space(sharp) && (behind != "" ==> !space(behind[|behind| - 1]))
    ensures Tight(space, name + b + [sharp] + behind)
  {
    var raw := name + b + [sharp] + behind;
    assert raw[0] == name[0] && raw[|raw| - 1] == if behind == "" then sharp else behind[|behind| - 1];
  }

  /** A name and a profession written with either sharp, and with white space anywhere around them, have one key. */
  lemma {:induction false} KeyOfWritten(space: Spaces, a: string, name: string, b: string, sharp: char, d: string, job: string, e: string)
    requires AllSpace(space, a) && AllSpace(space, b) && AllSpace(space, d) && AllSpace(space, e)
    requires Tight(space, name) && name != "" && Tight(space, job) && !space('#') && !space('\U{FF03}')
    requires (sharp == '#' || sharp == '\U{FF03}') && '#' !in name && '\U{FF03}' !in name
    ensures CanonicalKey(space, a + name + b + [sharp] + d + job + e) == name + [KEY_SEPARATOR] + job
  {
    hide Trim, CanonicalKey, Tight;
    var text := a + name + b + [sharp] + d + job + e;
    var front, behind, back := if job == "" then "" else d, if job == "" then "" else d + job, if job == "" then d + e else e;
    var raw := name + b + [sharp] + behind;
    assert text == a + raw + back;
    if job != "" { LastOfTight(space, d, job); }
    TightToSharp(space, name, b, sharp, behind);
    TrimIs(space, a, raw, back);
    TrimIs(space, "", name, b);
    assert "" + name + b == name + b;
    AvoidsSharps(space, name, b);
    TrimIs(space, front, job, "");
    assert front + job + "" == behind;
    KeyCut(space, text, name, b, sharp, behind);
  }

  lemma {:induction false} LastOfTight(space: Spaces, d: string, job: string)
    requires Tight(space, job) && job != ""
    ensures d + job != "" && !space((d + job)[|d + job| - 1])
  {
    assert (d + job)[|d + job| - 1] == job[|job| - 1];
  }

  // ---- The text written ----

  /** A library is written entry by entry, each on a line of its own that ends in a carriage return and a line feed. */
  lemma {:induction false} WrittenEntry(space: Spaces, first: LegacyText.Entry, rest: LegacyText.Library)
    ensures Serialize(space, [first] + rest) ==
      first.name + "=" + Bracketed(Unique(space, first.ids)) + "\r\n" + Serialize(space, rest)
    ensures Serialize(space, []) == ""
  {
    hide Bracketed, Unique;
    assert ([first] + rest)[1..] == rest && ([first] + rest)[0] == first;
  }

  /** Each identifier stands in a pair of round brackets. */
  lemma {:induction false} WrittenId(id: string, rest: seq<string>)
    ensures Bracketed([id] + rest) == "(" + id + ")" + Bracketed(rest) && Bracketed([]) == ""
  {
    assert ([id] + rest)[1..] == rest;
  }

  /** What separates identifiers: brackets, round or wide, and white space of ASCII. */
  lemma {:induction false} IdsAreSeparated(id: string, c: char, rest: string)
    requires id != "" && forall d | d in id :: d !in ['(', ')', '\U{FF08}', '\U{FF09}', ' ', '\t', '\r', '\n']
    requires c in ['(', ')', '\U{FF08}', '\U{FF09}', ' ', '\t', '\r', '\n']
    ensures Tokens([c] + id + [c] + rest) == [id] + Tokens(rest)
  {
    hide Tokens;
    var text := id + [c] + rest;
    assert [c] + id + [c] + rest == [c] + text;
    TokensBehind(c, text);
    forall i | 0 <= i < |id| ensures !Delimiter(text[i]) { assert text[i] == id[i] && id[i] in id; }
    FindAt(text, Delimiter, |id|);
    TokensAtWord(text);
    assert text[..|id|] == id && text[|id|..] == [c] + rest;
    TokensBehind(c, rest);
  }

  lemma {:induction false} TokensBehind(c: char, text: string)
    requires Delimiter(c)
    ensures Tokens([c] + text) == Tokens(text)
  {
    hide Tokens;
    var k := Find(text, Word);
    var all := [c] + text;
    forall i | 0 <= i < 1 + k ensures !Word(all[i]) { if i > 0 { assert all[i] == text[i - 1]; } }
    if k < |text| { assert all[1 + k] == text[k]; }
    FindAt(all, Word, 1 + k);
    assert all[1 + k..] == text[k..];
    TokensSkip(all);
    TokensSkip(text);
  }
}
