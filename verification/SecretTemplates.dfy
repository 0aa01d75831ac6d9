/**
 Filling a template: placeholders are replaced one after the other, and yet each hole gets its own
 value.
 */
module SecretTemplates {
  import opened Wrappers
  import opened Secrets

  /** What a template is made of: text, and the placeholders in it. */
  datatype Piece = Lit(text: string) | Hole(placeholder: string)

  function Render(pieces: seq<Piece>): string {
    if pieces == [] then ""
    else (match pieces[0] case Lit(text) => text case Hole(p) => Token(p)) + Render(pieces[1..])
  }

  /** Every hole of these placeholders filled at once, with its own value. */
  function Fill(pieces: seq<Piece>, entries: seq<Entry>): seq<Piece> {
    if pieces == [] then []
    else [match pieces[0]
          case Lit(text) => pieces[0]
          case Hole(p) => if ValueOf(entries, p).Some? then Lit(ValueOf(entries, p).value) else pieces[0]]
         + Fill(pieces[1..], entries)
  }

  function ValueOf(entries: seq<Entry>, placeholder: string): Option<string> {
    if entries == [] then None
    else if entries[|entries| - 1].placeholder == placeholder then Some(entries[|entries| - 1].value)
    else ValueOf(entries[..|entries| - 1], placeholder)
  }

  /** No part of a placeholder starts here: every dollar sign is followed, in the text, by something
      that is not a brace. */
  predicate Inert(text: string) {
    forall i :: 0 <= i < |text| && text[i] == '$' ==> i + 1 < |text| && text[i + 1] != '{'
  }

  predicate PlainName(placeholder: string) {
    '$' !in placeholder && '}' !in placeholder
  }

  predicate Template(pieces: seq<Piece>) {
    forall i :: 0 <= i < |pieces| ==>
      match pieces[i] case Lit(text) => Inert(text) case Hole(p) => PlainName(p)
  }

  /** The placeholders of a map: each once. */
  predicate Names(entries: seq<Entry>) {
    && (forall i :: 0 <= i < |entries| ==> PlainName(entries[i].placeholder))
    && (forall i, j :: 0 <= i < j < |entries| ==> entries[i].placeholder != entries[j].placeholder)
  }

  /** The text holds the word, or ends in a start of it. */
  predicate Opens(text: string, word: string) {
    Contains(text, word) || exists k :: 0 < k < |word| && k <= |text| && text[|text| - k..] == word[..k]
  }

  /** No value opens a placeholder that is replaced after it, but for one that stands for itself. */
  predicate NoneReadAgain(entries: seq<Entry>) {
    forall i, j :: 0 <= i < j < |entries| && entries[j].value != Token(entries[j].placeholder) ==>
                   !Opens(entries[i].value, Token(entries[j].placeholder))
  }

  /** Every occurrence replaced, from the left. */
  function Replaced(text: string, word: string, value: string): string
    requires word != ""
    decreases |text|
  {
    if text == "" then ""
    else if OccursAt(text, word, 0) then value + Replaced(text[|word|..], word, value)
    else [text[0]] + Replaced(text[1..], word, value)
  }

  lemma JoinLonger(c: char, parts: seq<string>, glue: string)
    requires parts != []
    ensures Join([[c] + parts[0]] + parts[1..], glue) == [c] + Join(parts, glue)
  {
    var longer := [[c] + parts[0]] + parts[1..];
    assert longer[1..] == parts[1..];
    if |parts| > 1 {
      assert ([c] + parts[0]) + (glue + Join(parts[1..], glue)) == [c] + (parts[0] + (glue + Join(parts[1..], glue)));
    }
  }

  lemma FindStep(text: string, word: string)
    requires word != "" && text != "" && !OccursAt(text, word, 0)
    ensures Find(text, word) == Find(text[1..], word) + 1
  {
    assert text[0..0] == "";
    assert |word| <= |text| ==> text[..|word|] == text[0..0 + |word|];
  }

  /** The text is cut at `i`, and what is past the `n` characters there is split in its turn. */
  ghost predicate CutsAt(split: string -> seq<string>, text: string, n: nat, i: nat) {
    i + n <= |text| && split(text) == [text[..i]] + split(text[i + n..])
  }

  function Splitter(word: string): string -> seq<string>
    requires word != ""
  {
    (text: string) => Split(text, word)
  }

  lemma CutAtWord(text: string, word: string, i: nat)
    requires word != "" && i == Find(text, word) <= |text|
    ensures CutsAt(Splitter(word), text, |word|, i)
  {
    SplitAt(text, word, i);
  }

  /** Splitting at a word first found at `j` past the first character. */
  lemma CutPastFirst(split: string -> seq<string>, text: string, n: nat, j: nat)
    requires text != "" && CutsAt(split, text, n, j + 1) && CutsAt(split, text[1..], n, j)
    ensures split(text) == [[text[0]] + split(text[1..])[0]] + split(text[1..])[1..]
  {
    assert text[..j + 1] == [text[0]] + text[1..][..j];
    assert text[j + 1 + n..] == text[1..][j + n..];
  }

  lemma SplitFound(text: string, word: string, j: nat)
    requires word != "" && text != "" && j < |text| && Find(text, word) == j + 1 && Find(text[1..], word) == j
    ensures Split(text, word) == [[text[0]] + Split(text[1..], word)[0]] + Split(text[1..], word)[1..]
  {
    CutAtWord(text, word, j + 1);
    CutAtWord(text[1..], word, j);
    CutPastFirst(Splitter(word), text, |word|, j);
  }

  lemma SplitMissed(text: string, word: string)
    requires word != "" && text != "" && Find(text, word) > |text| && Find(text[1..], word) >= |text|
    ensures Split(text, word) == [[text[0]] + Split(text[1..], word)[0]] + Split(text[1..], word)[1..]
  {
    assert [text[0]] + text[1..] == text;
  }

  lemma SplitStep(text: string, word: string)
    requires word != "" && text != "" && !OccursAt(text, word, 0)
    ensures Split(text, word) == [[text[0]] + Split(text[1..], word)[0]] + Split(text[1..], word)[1..]
  {
    FindStep(text, word);
    if Find(text[1..], word) < |text| {
      SplitFound(text, word, Find(text[1..], word));
    } else {
      SplitMissed(text, word);
    }
  }

  /** This is splitting at the word and joining with the value. */
  lemma {:induction false} ReplacedIs(text: string, word: string, value: string)
    requires word != ""
    ensures Join(Split(text, word), value) == Replaced(text, word, value)
    decreases |text|
  {
    if text == "" {
      SplitNone(text, word);
    } else if OccursAt(text, word, 0) {
      ReplacedIs(text[|word|..], word, value);
      SplitAt(text, word, 0);
      JoinTwo("", Split(text[|word|..], word), value);
    } else {
      ReplacedIs(text[1..], word, value);
      SplitStep(text, word);
      JoinLonger(text[0], Split(text[1..], word), value);
    }
  }

  /** What comes before the first occurrence stays. */
  lemma {:induction false} ReplacedAfter(head: string, rest: string, word: string, value: string)
    requires word != "" && forall k: nat :: k < |head| ==> !OccursAt(head + rest, word, k)
    ensures Replaced(head + rest, word, value) == head + Replaced(rest, word, value)
    decreases |head|
  {
    if head == "" {
      assert head + rest == rest;
    } else {
      var text := head + rest;
      assert text[1..] == head[1..] + rest;
      forall k: nat | k < |head[1..]| ensures !OccursAt(head[1..] + rest, word, k) {
        Shift(text, word, k + 1);
      }
      ReplacedAfter(head[1..], rest, word, value);
    }
  }

  lemma ReplacedFirst(word: string, rest: string, value: string)
    requires word != ""
    ensures Replaced(word + rest, word, value) == value + Replaced(rest, word, value)
  {
    var text := word + rest;
    assert text[0..0 + |word|] == word && text[|word|..] == rest;
  }

  lemma TokenStarts(text: string, p: string, k: nat)
    requires OccursAt(text, Token(p), k)
    ensures text[k] == '$' && text[k + 1] == '{'
  {
    assert text[k..k + |Token(p)|][0] == '$' && text[k..k + |Token(p)|][1] == '{';
  }

  lemma {:induction false} InertOpensNone(text: string, p: string)
    requires Inert(text)
    ensures !Opens(text, Token(p))
  {
    var word := Token(p);
    forall i: nat | i <= |text| ensures !OccursAt(text, word, i) {
      if OccursAt(text, word, i) {
        TokenStarts(text, p, i);
      }
    }
    forall k | 0 < k < |word| && k <= |text| ensures text[|text| - k..] != word[..k] {
      var tail := text[|text| - k..];
      assert tail[0] == text[|text| - k] && word[..k][0] == '$';
      assert k > 1 ==> tail[1] == text[|text| - k + 1] && word[..k][1] == '{';
    }
  }

  lemma AcrossEnd(text: string, rest: string, word: string, k: nat)
    requires k < |text| && OccursAt(text + rest, word, k)
    ensures Opens(text, word)
  {
    if k + |word| <= |text| {
      OccursInLeft(text, rest, word, k);
    } else {
      var n := |text| - k;
      assert word[..n] == (text + rest)[k..k + |word|][..n] == text[|text| - n..];
    }
  }

  lemma NotAcrossEnd(text: string, rest: string, word: string)
    requires !Opens(text, word)
    ensures forall k: nat :: k < |text| ==> !OccursAt(text + rest, word, k)
  {
    forall k: nat | k < |text| ensures !OccursAt(text + rest, word, k) {
      if OccursAt(text + rest, word, k) {
        AcrossEnd(text, rest, word, k);
      }
    }
  }

  /** Where two placeholders first differ. */
  lemma TokensDiffer(q: string, rest: string, p: string) returns (k: nat)
    requires PlainName(p) && PlainName(q) && p != q
    ensures k < |Token(p)| && k < |Token(q) + rest| && (Token(q) + rest)[k] != Token(p)[k]
  {
    var n := 0;
    while n < |p| && n < |q| && p[n] == q[n]
      invariant n <= |p| && n <= |q| && p[..n] == q[..n]
    {
      n := n + 1;
    }
    assert !(n == |p| == |q|) by {
      assert p[..|p|] == p && q[..|q|] == q;
    }
    assert n < |p| ==> p[n] in p;
    assert n < |q| ==> q[n] in q;
    k := 2 + n;
  }

  lemma NotAtOtherToken(q: string, rest: string, p: string)
    requires PlainName(p) && PlainName(q) && p != q
    ensures !OccursAt(Token(q) + rest, Token(p), 0)
  {
    var text, word := Token(q) + rest, Token(p);
    var k := TokensDiffer(q, rest, p);
    if |word| <= |text| {
      assert text[0..0 + |word|][k] == text[k];
    }
  }

  lemma NotInOtherToken(q: string, rest: string, p: string)
    requires PlainName(p) && PlainName(q) && p != q
    ensures forall k: nat :: k < |Token(q)| ==> !OccursAt(Token(q) + rest, Token(p), k)
  {
    NotAtOtherToken(q, rest, p);
    forall k: nat | 0 < k < |Token(q)| ensures !OccursAt(Token(q) + rest, Token(p), k) {
      assert 2 <= k < 2 + |q| ==> Token(q)[k] == q[k - 2] && q[k - 2] in q;
      assert (Token(q) + rest)[k] != '$';
      if OccursAt(Token(q) + rest, Token(p), k) {
        TokenStarts(Token(q) + rest, p, k);
      }
    }
  }

  /** One placeholder replaced, piece by piece. */
  function FillOne(pieces: seq<Piece>, e: Entry): seq<Piece> {
    if pieces == [] then []
    else [if pieces[0] == Hole(e.placeholder) then Lit(e.value) else pieces[0]] + FillOne(pieces[1..], e)
  }

  /** No literal opens the placeholder. */
  predicate Closed(pieces: seq<Piece>, p: string) {
    forall i :: 0 <= i < |pieces| ==>
      match pieces[i] case Lit(text) => !Opens(text, Token(p)) case Hole(q) => PlainName(q)
  }

  lemma {:induction false} ReplacesHoles(pieces: seq<Piece>, e: Entry)
    requires Closed(pieces, e.placeholder) && PlainName(e.placeholder)
    ensures Replaced(Render(pieces), Token(e.placeholder), e.value) == Render(FillOne(pieces, e))
  {
    var word := Token(e.placeholder);
    if pieces == [] {
    } else {
      var rest := Render(pieces[1..]);
      ReplacesHoles(pieces[1..], e);
      var filled := FillOne(pieces, e);
      assert filled[1..] == FillOne(pieces[1..], e);
      match pieces[0] {
        case Lit(text) =>
          NotAcrossEnd(text, rest, word);
          ReplacedAfter(text, rest, word, e.value);
        case Hole(p) =>
          if p == e.placeholder {
            ReplacedFirst(word, rest, e.value);
          } else {
            NotInOtherToken(p, rest, e.placeholder);
            ReplacedAfter(Token(p), rest, word, e.value);
          }
      }
    }
  }

  lemma {:induction false} ReplacedBySame(text: string, word: string)
    requires word != ""
    ensures Replaced(text, word, word) == text
    decreases |text|
  {
    if text == "" {
    } else if OccursAt(text, word, 0) {
      ReplacedBySame(text[|word|..], word);
      assert text == text[0..0 + |word|] + text[|word|..];
    } else {
      ReplacedBySame(text[1..], word);
      assert text == [text[0]] + text[1..];
    }
  }

  lemma {:induction false} FilledBySame(pieces: seq<Piece>, p: string)
    ensures Render(FillOne(pieces, Entry(p, Token(p)))) == Render(pieces)
  {
    if pieces != [] {
      FilledBySame(pieces[1..], p);
      var filled := FillOne(pieces, Entry(p, Token(p)));
      assert filled[1..] == FillOne(pieces[1..], Entry(p, Token(p)));
    }
  }

  lemma {:induction false} ReplacedLength(text: string, word: string, value: string)
    requires word != ""
    ensures |value| >= |word| ==> |Replaced(text, word, value)| >= |text|
    ensures |value| <= |word| ==> |Replaced(text, word, value)| <= |text|
    decreases |text|
  {
    if text != "" {
      ReplacedLength(if OccursAt(text, word, 0) then text[|word|..] else text[1..], word, value);
    }
  }

  /** A word that is there, replaced by another one, changes the text. */
  lemma {:induction false} ReplacedChanges(text: string, word: string, value: string)
    requires word != "" && value != word && Contains(text, word)
    ensures Replaced(text, word, value) != text
    decreases |text|
  {
    if OccursAt(text, word, 0) {
      var rest := text[|word|..];
      ReplacedLength(rest, word, value);
      if |value| == |word| {
        assert (value + Replaced(rest, word, value))[..|word|] == value && text[..|word|] == text[0..0 + |word|];
      }
    } else {
      var i: nat :| i <= |text| && OccursAt(text, word, i);
      Shift(text, word, i);
      ReplacedChanges(text[1..], word, value);
      assert ([text[0]] + Replaced(text[1..], word, value))[1..] == Replaced(text[1..], word, value);
    }
  }

  lemma {:induction false} FillIs(pieces: seq<Piece>, entries: seq<Entry>)
    ensures |Fill(pieces, entries)| == |pieces|
    ensures forall i :: 0 <= i < |pieces| ==>
              Fill(pieces, entries)[i] == match pieces[i]
                                          case Lit(text) => pieces[i]
                                          case Hole(p) => if ValueOf(entries, p).Some? then Lit(ValueOf(entries, p).value) else pieces[i]
  {
    if pieces != [] {
      FillIs(pieces[1..], entries);
      assert forall i :: 0 < i < |pieces| ==> pieces[i] == pieces[1..][i - 1];
    }
  }

  lemma {:induction false} FillOneIs(pieces: seq<Piece>, e: Entry)
    ensures |FillOne(pieces, e)| == |pieces|
    ensures forall i :: 0 <= i < |pieces| ==>
              FillOne(pieces, e)[i] == if pieces[i] == Hole(e.placeholder) then Lit(e.value) else pieces[i]
  {
    if pieces != [] {
      FillOneIs(pieces[1..], e);
      assert forall i :: 0 < i < |pieces| ==> pieces[i] == pieces[1..][i - 1];
    }
  }

  lemma {:induction false} ValueOfIs(entries: seq<Entry>, p: string)
    ensures ValueOf(entries, p).Some? <==> exists e :: e in entries && e.placeholder == p
    ensures ValueOf(entries, p).Some? ==> Entry(p, ValueOf(entries, p).value) in entries
  {
    if entries != [] {
      ValueOfIs(entries[..|entries| - 1], p);
      assert entries == entries[..|entries| - 1] + [entries[|entries| - 1]];
    }
  }

  lemma FillMore(pieces: seq<Piece>, entries: seq<Entry>)
    requires Names(entries) && entries != []
    ensures FillOne(Fill(pieces, entries[..|entries| - 1]), entries[|entries| - 1]) == Fill(pieces, entries)
  {
    var front, last := entries[..|entries| - 1], entries[|entries| - 1];
    FillIs(pieces, front);
    FillOneIs(Fill(pieces, front), last);
    FillIs(pieces, entries);
    ValueOfIs(front, last.placeholder);
    forall e | e in front ensures e.placeholder != last.placeholder {
      var i :| 0 <= i < |front| && front[i] == e;
      assert entries[i] == e;
    }
  }

  lemma {:induction false} FilledIsClosed(pieces: seq<Piece>, entries: seq<Entry>, p: string)
    requires Template(pieces) && forall e :: e in entries ==> !Opens(e.value, Token(p))
    ensures Closed(Fill(pieces, entries), p)
  {
    FillIs(pieces, entries);
    forall i | 0 <= i < |pieces|
      ensures match Fill(pieces, entries)[i] case Lit(text) => !Opens(text, Token(p)) case Hole(q) => PlainName(q)
    {
      match pieces[i] {
        case Lit(text) => InertOpensNone(text, p);
        case Hole(q) => ValueOfIs(entries, q);
      }
    }
  }

  lemma {:induction false} RoundFills(pieces: seq<Piece>, entries: seq<Entry>)
    requires Template(pieces) && Names(entries) && NoneReadAgain(entries) && entries != []
    ensures var front, last := entries[..|entries| - 1], entries[|entries| - 1];
            Replaced(Render(Fill(pieces, front)), Token(last.placeholder), last.value) == Render(Fill(pieces, entries))
  {
    var front, last := entries[..|entries| - 1], entries[|entries| - 1];
    var filled := Fill(pieces, front);
    FillMore(pieces, entries);
    if last.value == Token(last.placeholder) {
      ReplacedBySame(Render(filled), last.value);
      FilledBySame(filled, last.placeholder);
    } else {
      forall e | e in front ensures !Opens(e.value, Token(last.placeholder)) {
        var i :| 0 <= i < |front| && front[i] == e;
        assert entries[i] == e;
      }
      FilledIsClosed(pieces, front, last.placeholder);
      ReplacesHoles(filled, last);
    }
  }

  /**
   Substituting one placeholder after the other fills every hole of a template at once with its own
   value, though a later round reads what an earlier one wrote, if no value opens a placeholder that
   is replaced after it.
   */
  lemma {:induction false} SubstitutionFills(pieces: seq<Piece>, entries: seq<Entry>)
    requires Template(pieces) && Names(entries) && NoneReadAgain(entries)
    ensures Substitute(Render(pieces), entries) == Render(Fill(pieces, entries))
    decreases |entries|
  {
    if entries == [] {
      FillIs(pieces, entries);
      assert Fill(pieces, entries) == pieces;
    } else {
      var front, last := entries[..|entries| - 1], entries[|entries| - 1];
      SubstitutionFills(pieces, front);
      RoundFills(pieces, entries);
      ReplacedIs(Render(Fill(pieces, front)), Token(last.placeholder), last.value);
    }
  }

  lemma {:induction false} SuffixIsInert(p: string, k: nat)
    requires PlainName(p) && 0 < k <= |Token(p)|
    ensures Inert(Token(p)[k..])
  {
    forall i | 0 <= i < |Token(p)| - k ensures Token(p)[k..][i] != '$' {
      assert Token(p)[k..][i] == Token(p)[k + i];
      assert 2 <= k + i < 2 + |p| ==> Token(p)[k + i] == p[k + i - 2] && p[k + i - 2] in p;
    }
  }

  lemma {:induction false} EndAndRest(value: string, word: string, k: nat)
    requires k <= |word| && k <= |value| && value[|value| - k..] == word[..k]
    ensures Contains(value + word[k..], word)
  {
    var text, n := value + word[k..], |value| - k;
    assert word == word[..k] + word[k..];
    assert text == value[..n] + (value[n..] + word[k..]);
    assert text[n..n + |word|] == word;
    assert OccursAt(text, word, n);
  }

  /** What a template has to add for the placeholder to be read. */
  lemma {:induction false} Completed(value: string, p: string) returns (rest: string)
    requires PlainName(p) && Opens(value, Token(p))
    ensures Inert(rest) && Contains(value + rest, Token(p))
  {
    if Contains(value, Token(p)) {
      rest := "";
      assert value + rest == value;
    } else {
      var k :| 0 < k < |Token(p)| && k <= |value| && value[|value| - k..] == Token(p)[..k];
      rest := Token(p)[k..];
      SuffixIsInert(p, k);
      EndAndRest(value, Token(p), k);
    }
  }

  lemma {:induction false} FilledPair(entries: seq<Entry>, i: nat, rest: string)
    requires Names(entries) && i < |entries|
    ensures Render(Fill([Hole(entries[i].placeholder), Lit(rest)], entries)) == entries[i].value + rest
  {
    var p := entries[i].placeholder;
    var pieces := [Hole(p), Lit(rest)];
    ValueOfIs(entries, p);
    assert entries[i] in entries;
    var n :| 0 <= n < |entries| && entries[n] == Entry(p, ValueOf(entries, p).value);
    assert n == i;
    FillIs(pieces, entries);
    var filled := Fill(pieces, entries);
    assert filled == [Lit(entries[i].value), Lit(rest)];
    assert filled[1..] == [Lit(rest)] && [Lit(rest)][1..] == [];
    assert Render([Lit(rest)]) == rest + "";
  }

  lemma {:induction false} FilledSoFar(entries: seq<Entry>, n: nat, i: nat, rest: string)
    requires Names(entries) && i < n <= |entries|
    ensures Render(Fill([Hole(entries[i].placeholder), Lit(rest)], entries[..n])) == entries[i].value + rest
  {
    var so := entries[..n];
    assert forall k :: 0 <= k < n ==> so[k] == entries[k];
    FilledPair(so, i, rest);
  }

  lemma {:induction false} NextRoundChanges(template: string, entries: seq<Entry>, j: nat, text: string)
    requires j < |entries| && Substitute(template, entries[..j]) == text
    requires Contains(text, Token(entries[j].placeholder)) && entries[j].value != Token(entries[j].placeholder)
    ensures Substitute(template, entries[..j + 1]) != text
  {
    assert entries[..j + 1][..j] == entries[..j];
    ReplacedIs(text, Token(entries[j].placeholder), entries[j].value);
    ReplacedChanges(text, Token(entries[j].placeholder), entries[j].value);
  }

  /** So one of the two rounds does not end in that text. */
  lemma {:induction false} OneRoundDiffers(template: string, entries: seq<Entry>, j: nat, text: string) returns (n: nat)
    requires j < |entries|
    requires Contains(text, Token(entries[j].placeholder)) && entries[j].value != Token(entries[j].placeholder)
    ensures j <= n <= j + 1 && Substitute(template, entries[..n]) != text
  {
    n := j;
    if Substitute(template, entries[..j]) == text {
      n := j + 1;
      NextRoundChanges(template, entries, j, text);
    }
  }

  /** A value that opens a placeholder replaced after it goes wrong in some template. */
  lemma {:induction false} ReadAgain(entries: seq<Entry>, i: nat, j: nat) returns (n: nat, pieces: seq<Piece>)
    requires Names(entries) && i < j < |entries| && entries[j].value != Token(entries[j].placeholder)
    requires Opens(entries[i].value, Token(entries[j].placeholder))
    ensures n <= |entries| && Template(pieces)
    ensures Substitute(Render(pieces), entries[..n]) != Render(Fill(pieces, entries[..n]))
  {
    var rest := Completed(entries[i].value, entries[j].placeholder);
    pieces := [Hole(entries[i].placeholder), Lit(rest)];
    n := OneRoundDiffers(Render(pieces), entries, j, entries[i].value + rest);
    FilledSoFar(entries, n, i, rest);
  }

  /** After each of the rounds, every template has the holes filled whose turn has come. */
  ghost predicate FillsInEveryRound(entries: seq<Entry>) {
    forall n: nat, pieces :: n <= |entries| && Template(pieces) ==>
                             Substitute(Render(pieces), entries[..n]) == Render(Fill(pieces, entries[..n]))
  }

  /** So that is the exact condition on the map. */
  lemma SubstitutionFillsIff(entries: seq<Entry>)
    requires Names(entries)
    ensures FillsInEveryRound(entries) <==> NoneReadAgain(entries)
  {
    if NoneReadAgain(entries) {
      forall n: nat, pieces | n <= |entries| && Template(pieces)
        ensures Substitute(Render(pieces), entries[..n]) == Render(Fill(pieces, entries[..n]))
      {
        SubstitutionFills(pieces, entries[..n]);
      }
    } else {
      var i, j :| 0 <= i < j < |entries| && entries[j].value != Token(entries[j].placeholder)
                  && Opens(entries[i].value, Token(entries[j].placeholder));
      var n, pieces := ReadAgain(entries, i, j);
    }
  }

  lemma {:induction false} NoTokenIn(pieces: seq<Piece>, p: string)
    requires Closed(pieces, p) && PlainName(p) && forall i :: 0 <= i < |pieces| ==> pieces[i] != Hole(p)
    ensures !Contains(Render(pieces), Token(p))
  {
    var word := Token(p);
    if pieces == [] {
      TooLongToHold("", word);
    } else {
      var rest := Render(pieces[1..]);
      NoTokenIn(pieces[1..], p);
      var head := match pieces[0] case Lit(text) => text case Hole(q) => Token(q);
      match pieces[0] {
        case Lit(text) => NotAcrossEnd(text, rest, word);
        case Hole(q) => NotInOtherToken(q, rest, p);
      }
      forall k: nat | k <= |head + rest| ensures !OccursAt(head + rest, word, k) {
        if k >= |head| {
          OccursInRight(head, rest, word, k);
        }
      }
    }
  }

  lemma {:induction false} NoneLeftOf(pieces: seq<Piece>, entries: seq<Entry>, e: Entry)
    requires Template(pieces) && Names(entries) && NoneReadAgain(entries) && e in entries
    requires forall d :: d in entries ==> !Opens(d.value, Token(e.placeholder))
    ensures !Contains(Substitute(Render(pieces), entries), Token(e.placeholder))
  {
    SubstitutionFills(pieces, entries);
    FilledIsClosed(pieces, entries, e.placeholder);
    FillIs(pieces, entries);
    ValueOfIs(entries, e.placeholder);
    var i :| 0 <= i < |entries| && entries[i] == e;
    NoTokenIn(Fill(pieces, entries), e.placeholder);
  }

  /** Then a placeholder it knows is left in no template, exactly if no value at all opens it: not
      even its own, or one that is written after its turn. */
  lemma NoPlaceholderLeft(entries: seq<Entry>, e: Entry)
    requires Names(entries) && NoneReadAgain(entries) && e in entries
    ensures (forall pieces :: Template(pieces) ==> !Contains(Substitute(Render(pieces), entries), Token(e.placeholder)))
            <==> forall d :: d in entries ==> !Opens(d.value, Token(e.placeholder))
  {
    if d :| d in entries && Opens(d.value, Token(e.placeholder)) {
      var i :| 0 <= i < |entries| && entries[i] == d;
      var j :| 0 <= j < |entries| && entries[j] == e;
      var rest := Completed(d.value, e.placeholder);
      var pieces := [Hole(d.placeholder), Lit(rest)];
      FilledPair(entries, i, rest);
      SubstitutionFills(pieces, entries);
      assert Template(pieces);
    } else {
      forall pieces | Template(pieces)
        ensures !Contains(Substitute(Render(pieces), entries), Token(e.placeholder))
      {
        NoneLeftOf(pieces, entries, e);
      }
    }
  }

  /** A value that holds a placeholder is read again: the round after it writes into what it wrote. */
  lemma ValueIsReadAgain(p: string, q: string, value: string)
    requires PlainName(p) && PlainName(q) && p != q
    ensures Substitute(Token(p), [Entry(p, Token(q)), Entry(q, value)]) == value
    ensures Render(Fill([Hole(p)], [Entry(p, Token(q)), Entry(q, value)])) == Token(q)
  {
    var entries := [Entry(p, Token(q)), Entry(q, value)];
    assert entries[..1] == [Entry(p, Token(q))] && [Entry(p, Token(q))][..0] == [];
    WholeToken(p, Token(q));
    assert Substitute(Token(p), entries[..1]) == Token(q);
    WholeToken(q, value);
    assert ValueOf(entries[..1], p) == Some(Token(q)) && ValueOf(entries, p) == Some(Token(q));
    assert [Hole(p)][1..] == [];
    var filled := [Lit(Token(q))] + Fill([], entries);
    assert Fill([Hole(p)], entries) == filled && filled[1..] == [];
    assert Render(filled) == Token(q) + "";
  }

  lemma WholeToken(p: string, value: string)
    ensures Join(Split(Token(p), Token(p)), value) == value
  {
    ReplacedIs(Token(p), Token(p), value);
    assert Token(p) + "" == Token(p);
    ReplacedFirst(Token(p), "", value);
    assert value + "" == value;
  }
}
