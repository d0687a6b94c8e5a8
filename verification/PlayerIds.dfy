/** A player's identifiers: trimming, the key that decides whether two are the same, and the
    bracketed list they are written as. */
module PlayerIds {

  /** What the C library counts as white space, which depends on the locale. */
  type Spaces = char -> bool

  const KEY_SEPARATOR := '\U{001F}'

  predicate Sharp(c: char) { c == '#' || c == '\U{FF03}' }

  predicate Delimiter(c: char) { c in "()\U{FF08}\U{FF09} \t\r\n" }

  predicate Word(c: char) { !Delimiter(c) }

  /** Where the first wanted character stands, the length if there is none. */
  function Find(text: string, wanted: char -> bool): (k: nat)
    ensures k <= |text|
    ensures forall i | 0 <= i < k :: !wanted(text[i])
    ensures k < |text| ==> wanted(text[k])
  {
    if text == [] || wanted(text[0]) then 0 else 1 + Find(text[1..], wanted)
  }

  lemma {:induction false} FindAt(text: string, wanted: char -> bool, k: nat)
    requires k <= |text| && forall i | 0 <= i < k :: !wanted(text[i])
    requires k < |text| ==> wanted(text[k])
    ensures Find(text, wanted) == k
  {}

  predicate Avoids(text: string, banned: char -> bool) {
    forall i | 0 <= i < |text| :: !banned(text[i])
  }

  // ---- Trimming ----

  function TrimStart(space: Spaces, text: string): string {
    if text != [] && space(text[0]) then TrimStart(space, text[1..]) else text
  }

  function TrimEnd(space: Spaces, text: string): string {
    if text != [] && space(text[|text| - 1]) then TrimEnd(space, text[..|text| - 1]) else text
  }

  function Trim(space: Spaces, text: string): string { TrimEnd(space, TrimStart(space, text)) }

  /** No white space at either end. */
  predicate Tight(space: Spaces, text: string) {
    text != [] ==> !space(text[0]) && !space(text[|text| - 1])
  }

  predicate AllSpace(space: Spaces, text: string) { forall c | c in text :: space(c) }

  lemma {:induction false} TrimStartCuts(space: Spaces, text: string) returns (a: nat)
    ensures a <= |text| && TrimStart(space, text) == text[a..] && AllSpace(space, text[..a])
    ensures a < |text| ==> !space(text[a])
  {
    a := 0;
    if text != [] && space(text[0]) {
      var rest := TrimStartCuts(space, text[1..]);
      a := rest + 1;
      assert text[1..][rest..] == text[a..];
      assert text[..a] == [text[0]] + text[1..][..rest];
    }
  }

  lemma {:induction false} TrimEndCuts(space: Spaces, text: string) returns (b: nat)
    ensures b <= |text| && TrimEnd(space, text) == text[..b] && AllSpace(space, text[b..])
    ensures b > 0 ==> !space(text[b - 1])
  {
    b := |text|;
    if text != [] && space(text[|text| - 1]) {
      var shorter := text[..|text| - 1];
      b := TrimEndCuts(space, shorter);
      assert shorter[..b] == text[..b];
      assert text[b..] == shorter[b..] + [text[|text| - 1]];
    }
  }

  /** Trimming cuts off white space at both ends and all of it. */
  lemma {:induction false} TrimCuts(space: Spaces, text: string) returns (a: nat, b: nat)
    ensures a <= b <= |text| && Trim(space, text) == text[a..b] && Tight(space, text[a..b])
    ensures AllSpace(space, text[..a]) && AllSpace(space, text[b..])
  {
    a := TrimStartCuts(space, text);
    var n := TrimEndCuts(space, text[a..]);
    b := a + n;
    assert text[a..][..n] == text[a..b];
    assert text[a..][n..] == text[b..];
    if n > 0 { assert text[a..][n - 1] == text[b - 1]; }
  }

  lemma {:induction false} TrimKeepsTight(space: Spaces, text: string)
    requires Tight(space, text)
    ensures Trim(space, text) == text
  {}

  lemma {:induction false} TrimTwice(space: Spaces, text: string)
    ensures Tight(space, Trim(space, text)) && Trim(space, Trim(space, text)) == Trim(space, text)
  {
    var a, b := TrimCuts(space, text);
  }

  lemma {:induction false} TrimAvoids(space: Spaces, text: string, banned: char -> bool)
    requires Avoids(text, banned)
    ensures Avoids(Trim(space, text), banned)
  {
    var a, b := TrimCuts(space, text);
  }

  // ---- The comparison key ----

  function CanonicalKey(space: Spaces, text: string): string {
    var raw := Trim(space, text);
    if raw == "" then raw
    else
      var sharp := Find(raw, Sharp);
      var body := Trim(space, raw[..sharp]);
      if body == "" then raw
      else
        var job := if sharp == |raw| then "" else Trim(space, raw[sharp + 1..]);
        body + [KEY_SEPARATOR] + job
  }

  /** The name before the first sharp. */
  function Body(space: Spaces, text: string): string {
    var raw := Trim(space, text);
    Trim(space, raw[..Find(raw, Sharp)])
  }

  /** The profession after the first sharp. */
  function Job(space: Spaces, text: string): string {
    var raw := Trim(space, text);
    var sharp := Find(raw, Sharp);
    if sharp == |raw| then "" else Trim(space, raw[sharp + 1..])
  }

  predicate Separates(c: char) { c == KEY_SEPARATOR }

  lemma {:induction false} PartsAvoid(space: Spaces, text: string)
    requires Avoids(text, Separates)
    ensures Avoids(Trim(space, text), Separates)
    ensures Avoids(Body(space, text), Separates) && Avoids(Job(space, text), Separates)
  {
    var raw := Trim(space, text);
    TrimAvoids(space, text, Separates);
    var sharp := Find(raw, Sharp);
    TrimAvoids(space, raw[..sharp], Separates);
    if sharp < |raw| { TrimAvoids(space, raw[sharp + 1..], Separates); }
  }

  lemma {:induction false} BodyOfBlank(space: Spaces, text: string)
    requires Trim(space, text) == ""
    ensures Body(space, text) == "" && Job(space, text) == ""
  {}

  lemma {:induction false} KeyIsParts(space: Spaces, text: string)
    ensures Body(space, text) == "" ==> CanonicalKey(space, text) == Trim(space, text)
    ensures Body(space, text) != "" ==> CanonicalKey(space, text) == Body(space, text) + [KEY_SEPARATOR] + Job(space, text)
  {
    if Trim(space, text) == "" { BodyOfBlank(space, text); }
  }

  lemma {:induction false} JoinedParts(body: string, job: string)
    requires Avoids(body, Separates)
    ensures Find(body + [KEY_SEPARATOR] + job, Separates) == |body|
    ensures (body + [KEY_SEPARATOR] + job)[..|body|] == body
    ensures (body + [KEY_SEPARATOR] + job)[|body| + 1..] == job
  {
    FindAt(body + [KEY_SEPARATOR] + job, Separates, |body|);
  }

  /** Two texts have one name and one profession; texts without a name are compared whole. */
  predicate SamePlayer(space: Spaces, a: string, b: string) {
    && Body(space, a) == Body(space, b)
    && Job(space, a) == Job(space, b)
    && (Body(space, a) == "" ==> Trim(space, a) == Trim(space, b))
  }

  /** On texts without the control character U+001F equal keys mean the same player. */
  lemma {:induction false} KeyIsInjective(space: Spaces, a: string, b: string)
    requires Avoids(a, Separates) && Avoids(b, Separates)
    ensures CanonicalKey(space, a) == CanonicalKey(space, b) <==> SamePlayer(space, a, b)
  {
    hide Body, Job, CanonicalKey;
    KeyIsParts(space, a);
    KeyIsParts(space, b);
    PartsAvoid(space, a);
    PartsAvoid(space, b);
    JoinedParts(Body(space, a), Job(space, a));
    JoinedParts(Body(space, b), Job(space, b));
    if Body(space, a) == "" && Body(space, b) == "" && Trim(space, a) == Trim(space, b) {
      SameTrimSameJob(space, a, b);
    }
    FindAt(Trim(space, a), Separates, |Trim(space, a)|);
    FindAt(Trim(space, b), Separates, |Trim(space, b)|);
  }

  lemma {:induction false} SameTrimSameJob(space: Spaces, a: string, b: string)
    requires Trim(space, a) == Trim(space, b)
    ensures Job(space, a) == Job(space, b)
  {}

  /** With that character in the texts, different players can share a key. */
  lemma {:induction false} ControlTextsCollide(space: Spaces)
    requires !space('a') && !space('b') && !space('c') && !space('#')
    ensures CanonicalKey(space, "a\U{001F}b#c") == CanonicalKey(space, "a#b\U{001F}c")
    ensures Body(space, "a\U{001F}b#c") != Body(space, "a#b\U{001F}c")
  {
    var p, q := "a\U{001F}b#c", "a#b\U{001F}c";
    FindAt(p, Sharp, 3);
    FindAt(q, Sharp, 1);
    assert p[..3] == "a\U{001F}b" && p[4..] == "c";
    assert q[..1] == "a" && q[2..] == "b\U{001F}c";
    assert "a\U{001F}b" + [KEY_SEPARATOR] + "c" == "a" + [KEY_SEPARATOR] + "b\U{001F}c";
    KeyIsParts(space, p);
    KeyIsParts(space, q);
  }

  lemma {:induction false} KeyOfTrimmed(space: Spaces, text: string)
    ensures CanonicalKey(space, Trim(space, text)) == CanonicalKey(space, text)
  {
    TrimTwice(space, text);
  }

  // ---- Reading a list of identifiers ----

  /** A word: an identifier that reading cannot cut. */
  predicate Clean(id: string) { id != "" && Avoids(id, Delimiter) }

  predicate AllClean(ids: seq<string>) { forall id | id in ids :: Clean(id) }

  /** The longest runs of characters that are not delimiters. */
  function Tokens(text: string): (ids: seq<string>)
    ensures AllClean(ids)
    decreases |text|
  {
    var start := Find(text, Word);
    if start == |text| then []
    else
      var rest := text[start..];
      var end := Find(rest, Delimiter);
      [rest[..end]] + Tokens(rest[end..])
  }

  function Concat(ids: seq<string>): string {
    if ids == [] then "" else ids[0] + Concat(ids[1..])
  }

  function Words(text: string): string {
    if text == "" then "" else (if Word(text[0]) then [text[0]] else "") + Words(text[1..])
  }

  lemma {:induction false} WordsAppend(a: string, b: string)
    ensures Words(a + b) == Words(a) + Words(b)
  {
    if a == "" {
      assert a + b == b;
    } else {
      assert (a + b)[1..] == a[1..] + b;
      WordsAppend(a[1..], b);
    }
  }

  lemma {:induction false} WordsOfRun(run: string)
    ensures Avoids(run, Delimiter) ==> Words(run) == run
    ensures Avoids(run, Word) ==> Words(run) == ""
  {
    if run != "" {
      WordsOfRun(run[1..]);
      assert run == [run[0]] + run[1..];
    }
  }

  lemma {:induction false} TokensAtWord(text: string)
    requires text != "" && Word(text[0])
    ensures Find(text, Delimiter) > 0
    ensures Tokens(text) == [text[..Find(text, Delimiter)]] + Tokens(text[Find(text, Delimiter)..])
  {
    FindAt(text, Word, 0);
    assert text[0..] == text;
  }

  lemma {:induction false} TokensOfNothing(text: string)
    requires Find(text, Word) == |text|
    ensures Tokens(text) == []
  {}

  lemma {:induction false} TokensSkip(text: string)
    ensures Tokens(text[Find(text, Word)..]) == Tokens(text)
  {
    var start := Find(text, Word);
    FindAt(text[start..], Word, 0);
    assert text[start..][0..] == text[start..];
  }

  lemma {:induction false} WordsCut(text: string, k: nat)
    requires k <= |text|
    ensures Words(text) == Words(text[..k]) + Words(text[k..])
  {
    assert text == text[..k] + text[k..];
    WordsAppend(text[..k], text[k..]);
  }

  /** Reading loses no character but delimiters, and keeps their order. */
  lemma {:induction false} TokensLoseNothing(text: string)
    ensures Concat(Tokens(text)) == Words(text)
    decreases |text|
  {
    hide Find, Tokens, Words;
    var start := Find(text, Word);
    WordsCut(text, start);
    WordsOfRun(text[..start]);
    TokensSkip(text);
    if start < |text| {
      var rest := text[start..];
      TokensAtWord(rest);
      var end := Find(rest, Delimiter);
      WordsCut(rest, end);
      WordsOfRun(rest[..end]);
      TokensLoseNothing(rest[end..]);
      assert Concat([rest[..end]] + Tokens(rest[end..])) == rest[..end] + Concat(Tokens(rest[end..]));
    } else {
      TokensOfNothing(text);
      WordsOfRun(text[start..]);
    }
  }

  method ParseIds(text: string) returns (result: seq<string>)
    ensures result == Tokens(text)
  {
    hide Find, Tokens;
    result := [];
    var pos := Find(text, Word);
    TokensSkip(text);
    while pos < |text|
      invariant pos <= |text| && (pos < |text| ==> Word(text[pos]))
      invariant result + Tokens(text[pos..]) == Tokens(text)
      decreases |text| - pos
    {
      var rest := text[pos..];
      TokensAtWord(rest);
      var length := Find(rest, Delimiter);
      result := result + [rest[..length]];
      var after := rest[length..];
      TokensSkip(after);
      var next := pos + length + Find(after, Word);
      assert after[Find(after, Word)..] == text[next..];
      pos := next;
    }
    FindAt(text[pos..], Word, 0);
    TokensOfNothing(text[pos..]);
  }

  // ---- Writing a list of identifiers ----

  /** The identifiers that are written: trimmed, the first of each key not seen before. */
  function Kept(space: Spaces, ids: seq<string>, seen: set<string>): seq<string> {
    if ids == [] then []
    else if Trim(space, ids[0]) == "" || CanonicalKey(space, ids[0]) in seen then Kept(space, ids[1..], seen)
    else [Trim(space, ids[0])] + Kept(space, ids[1..], seen + {CanonicalKey(space, ids[0])})
  }

  function Unique(space: Spaces, ids: seq<string>): seq<string> { Kept(space, ids, {}) }

  function Bracketed(ids: seq<string>): string {
    if ids == [] then "" else "(" + ids[0] + ")" + Bracketed(ids[1..])
  }

  method FormatIds(space: Spaces, ids: seq<string>) returns (result: string)
    ensures result == Bracketed(Unique(space, ids))
  {
    result := "";
    var seen: set<string> := {};
    assert ids[0..] == ids;
    for i := 0 to |ids|
      invariant result + Bracketed(Kept(space, ids[i..], seen)) == Bracketed(Unique(space, ids))
    {
      assert ids[i..][1..] == ids[i + 1..];
      var id := Trim(space, ids[i]);
      var key := CanonicalKey(space, ids[i]);
      if id != "" && key !in seen {
        assert Kept(space, ids[i..], seen) == [id] + Kept(space, ids[i + 1..], seen + {key});
        seen := seen + {key};
        BracketedFirst(id, Kept(space, ids[i + 1..], seen));
        result := result + ("(" + id + ")");
      }
    }
  }

  lemma {:induction false} BracketedFirst(id: string, rest: seq<string>)
    ensures Bracketed([id] + rest) == "(" + id + ")" + Bracketed(rest)
  {
    assert ([id] + rest)[1..] == rest;
  }

  /** Position i holds a written identifier: not blank, its key neither seen nor at an earlier position. */
  predicate Chosen(space: Spaces, ids: seq<string>, seen: set<string>, i: nat) {
    && i < |ids|
    && Trim(space, ids[i]) != ""
    && CanonicalKey(space, ids[i]) !in seen
    && (forall j | 0 <= j < i && Trim(space, ids[j]) != "" :: CanonicalKey(space, ids[j]) != CanonicalKey(space, ids[i]))
  }

  predicate Ascending(at: seq<nat>) { forall k, l | 0 <= k < l < |at| :: at[k] < at[l] }

  function Shift(at: seq<nat>): (r: seq<nat>)
    ensures |r| == |at| && forall k | 0 <= k < |at| :: r[k] == at[k] + 1
  {
    seq(|at|, k requires 0 <= k < |at| => at[k] + 1)
  }

  lemma {:induction false} ShiftMembers(at: seq<nat>, i: nat)
    ensures i in Shift(at) <==> i > 0 && i - 1 in at
  {
    if i > 0 && i - 1 in at {
      var k :| 0 <= k < |at| && at[k] == i - 1;
      assert Shift(at)[k] == i;
    }
  }

  function SeenAfter(space: Spaces, id: string, seen: set<string>): set<string> {
    if Trim(space, id) == "" then seen else seen + {CanonicalKey(space, id)}
  }

  lemma {:induction false} ChosenLater(space: Spaces, ids: seq<string>, seen: set<string>, i: nat)
    requires ids != []
    ensures Chosen(space, ids, seen, i + 1) <==> Chosen(space, ids[1..], SeenAfter(space, ids[0], seen), i)
  {
    hide Trim, CanonicalKey;
    if Chosen(space, ids, seen, i + 1) {
      forall j | 0 <= j < i && Trim(space, ids[1..][j]) != ""
        ensures CanonicalKey(space, ids[1..][j]) != CanonicalKey(space, ids[1..][i])
      {
        assert ids[1..][j] == ids[j + 1];
      }
    }
    if Chosen(space, ids[1..], SeenAfter(space, ids[0], seen), i) {
      forall j | 0 <= j < i + 1 && Trim(space, ids[j]) != ""
        ensures CanonicalKey(space, ids[j]) != CanonicalKey(space, ids[i + 1])
      {
        if j > 0 { assert ids[1..][j - 1] == ids[j]; }
      }
    }
  }

  lemma {:induction false} KeptStep(space: Spaces, ids: seq<string>, seen: set<string>)
    requires ids != []
    ensures !Chosen(space, ids, seen, 0) ==> Kept(space, ids, seen) == Kept(space, ids[1..], SeenAfter(space, ids[0], seen))
    ensures Chosen(space, ids, seen, 0) ==> Kept(space, ids, seen) == [Trim(space, ids[0])] + Kept(space, ids[1..], SeenAfter(space, ids[0], seen))
  {
    hide Trim, CanonicalKey;
    if CanonicalKey(space, ids[0]) in seen { assert seen + {CanonicalKey(space, ids[0])} == seen; }
  }

  predicate Placed(space: Spaces, ids: seq<string>, kept: seq<string>, at: seq<nat>) {
    |at| == |kept| && forall k | 0 <= k < |at| :: at[k] < |ids| && kept[k] == Trim(space, ids[at[k]])
  }

  lemma {:induction false} PlacedShift(space: Spaces, ids: seq<string>, kept: seq<string>, at: seq<nat>)
    requires ids != [] && Placed(space, ids[1..], kept, at)
    ensures Placed(space, ids, kept, Shift(at))
    ensures Placed(space, ids, [Trim(space, ids[0])] + kept, [0] + Shift(at))
  {
    hide Trim;
  }

  /** The written identifiers stand at exactly the chosen positions, in order. */
  lemma {:induction false} KeptAreChosen(space: Spaces, ids: seq<string>, seen: set<string>) returns (at: seq<nat>)
    ensures Ascending(at) && Placed(space, ids, Kept(space, ids, seen), at)
    ensures forall i: nat :: i in at <==> Chosen(space, ids, seen, i)
  {
    hide Trim, CanonicalKey, SeenAfter, Kept, Chosen, Placed;
    if ids == [] {
      at := [];
      NoneChosen(space, seen);
    } else {
      var rest := KeptAreChosen(space, ids[1..], SeenAfter(space, ids[0], seen));
      KeptStep(space, ids, seen);
      PlacedShift(space, ids, Kept(space, ids[1..], SeenAfter(space, ids[0], seen)), rest);
      at := if Chosen(space, ids, seen, 0) then [0] + Shift(rest) else Shift(rest);
      forall i: nat ensures i in at <==> Chosen(space, ids, seen, i) {
        ShiftMembers(rest, i);
        if i > 0 { ChosenLater(space, ids, seen, i - 1); }
      }
    }
  }

  lemma {:induction false} NoneChosen(space: Spaces, seen: set<string>)
    ensures Placed(space, [], Kept(space, [], seen), [])
    ensures forall i: nat :: !Chosen(space, [], seen, i)
  {}

  /** The written identifiers are trimmed, not blank, and have different keys, none of them seen. */
  predicate Written(space: Spaces, ids: seq<string>, seen: set<string>) {
    && (forall k | 0 <= k < |ids| :: ids[k] != "" && Trim(space, ids[k]) == ids[k] && CanonicalKey(space, ids[k]) !in seen)
    && (forall k, l | 0 <= k < l < |ids| :: CanonicalKey(space, ids[k]) != CanonicalKey(space, ids[l]))
  }

  lemma {:induction false} KeptIsWritten(space: Spaces, ids: seq<string>, seen: set<string>)
    ensures Written(space, Kept(space, ids, seen), seen)
  {
    hide Trim, CanonicalKey;
    if ids != [] {
      var id, key := Trim(space, ids[0]), CanonicalKey(space, ids[0]);
      if id == "" || key in seen {
        KeptIsWritten(space, ids[1..], seen);
      } else {
        KeptIsWritten(space, ids[1..], seen + {key});
        KeyOfTrimmed(space, ids[0]);
        TrimTwice(space, ids[0]);
      }
    }
  }

  lemma {:induction false} WrittenIsKept(space: Spaces, ids: seq<string>, seen: set<string>)
    requires Written(space, ids, seen)
    ensures Kept(space, ids, seen) == ids
  {
    hide Trim, CanonicalKey;
    if ids != [] {
      WrittenIsKept(space, ids[1..], seen + {CanonicalKey(space, ids[0])});
      assert ids == [ids[0]] + ids[1..];
    }
  }

  /** Choosing twice changes nothing. */
  lemma {:induction false} UniqueTwice(space: Spaces, ids: seq<string>)
    ensures Unique(space, Unique(space, ids)) == Unique(space, ids)
  {
    KeptIsWritten(space, ids, {});
    WrittenIsKept(space, Unique(space, ids), {});
  }

  lemma {:induction false} TokensOfBracket(id: string, rest: string)
    requires Clean(id)
    ensures Tokens("(" + id + ")" + rest) == [id] + Tokens(")" + rest)
  {
    var text := "(" + id + ")" + rest;
    FindAt(text, Word, 1);
    assert text[1..] == id + (")" + rest);
    FindAt(text[1..], Delimiter, |id|);
    assert text[1..][..|id|] == id && text[1..][|id|..] == ")" + rest;
  }

  lemma {:induction false} TokensAfterBracket(rest: string)
    ensures Tokens(")" + rest) == Tokens(rest)
  {
    hide Tokens;
    var text, start := ")" + rest, Find(rest, Word);
    FindAt(text, Word, start + 1);
    TokensSkip(text);
    TokensSkip(rest);
    assert text[start + 1..] == rest[start..];
  }

  /** Reading undoes writing for exactly the lists of clean identifiers. */
  lemma {:induction false} ReadingUndoesWriting(ids: seq<string>)
    ensures Tokens(Bracketed(ids)) == ids <==> AllClean(ids)
  {
    if AllClean(ids) { CleanReadsBack(ids); }
  }

  lemma {:induction false} CleanReadsBack(ids: seq<string>)
    requires AllClean(ids)
    ensures Tokens(Bracketed(ids)) == ids
  {
    hide Tokens, Clean;
    if ids == [] {
      TokensOfNothing(Bracketed(ids));
    } else {
      assert ids[0] in ids && forall id | id in ids[1..] :: id in ids;
      CleanReadsBack(ids[1..]);
      TokensOfBracket(ids[0], Bracketed(ids[1..]));
      TokensAfterBracket(Bracketed(ids[1..]));
    }
  }
}
