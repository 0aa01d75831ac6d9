/**
 Secret material of one server: placeholders are replaced by values on the way in, values by
 stars on the way out.
 */
module Secrets {
  import opened Wrappers

  const STARS := "***"

  // ---------------------------------------------------------------- split and join

  predicate OccursAt(text: string, word: string, i: nat) {
    i + |word| <= |text| && text[i..i + |word|] == word
  }

  predicate Contains(text: string, word: string) {
    exists i: nat :: i <= |text| && OccursAt(text, word, i)
  }

  /** The first occurrence, or one past the length of the text. */
  function Find(text: string, word: string): (i: nat)
    ensures i <= |text| + 1
    ensures i <= |text| ==> OccursAt(text, word, i)
    ensures forall k: nat :: k < i && k <= |text| ==> !OccursAt(text, word, k)
    decreases |text|
  {
    if |word| <= |text| && text[..|word|] == word then 0
    else if text == "" then 1
    else
      var i := Find(text[1..], word);
      assert forall k: nat :: 0 < k <= |text| ==> (OccursAt(text, word, k) <==> OccursAt(text[1..], word, k - 1)) by {
        forall k: nat | 0 < k <= |text| ensures OccursAt(text, word, k) <==> OccursAt(text[1..], word, k - 1) {
          Shift(text, word, k);
        }
      }
      i + 1
  }

  lemma Shift(text: string, word: string, k: nat)
    requires 0 < k <= |text|
    ensures OccursAt(text, word, k) <==> OccursAt(text[1..], word, k - 1)
  {
    if k + |word| <= |text| {
      assert text[k..k + |word|] == text[1..][k - 1..k - 1 + |word|];
    }
  }

  function Split(text: string, word: string): (parts: seq<string>)
    requires word != ""
    ensures parts != []
    decreases |text|
  {
    var i := Find(text, word);
    if i > |text| then [text] else [text[..i]] + Split(text[i + |word|..], word)
  }

  function Join(parts: seq<string>, glue: string): string
    requires parts != []
  {
    if |parts| == 1 then parts[0] else parts[0] + (glue + Join(parts[1..], glue))
  }

  // --------------------------------------------------------------------- material

  datatype Entry = Entry(placeholder: string, value: string)

  function Token(placeholder: string): string {
    "${" + (placeholder + "}")
  }

  /** The values that are not empty, longest first; equally long ones in their own order. */
  function InsertValue(v: string, sorted: seq<string>): seq<string> {
    if sorted == [] || |v| > |sorted[0]| then [v] + sorted else [sorted[0]] + InsertValue(v, sorted[1..])
  }

  function Values(entries: seq<Entry>): seq<string> {
    if entries == [] then []
    else
      var last := entries[|entries| - 1].value;
      var front := Values(entries[..|entries| - 1]);
      if last == "" then front else InsertValue(last, front)
  }

  predicate NoneEmpty(values: seq<string>) {
    forall i :: 0 <= i < |values| ==> values[i] != ""
  }

  function RedactAll(text: string, values: seq<string>): string
    requires NoneEmpty(values)
  {
    if values == [] then text
    else Join(Split(RedactAll(text, values[..|values| - 1]), values[|values| - 1]), STARS)
  }

  function Substitute(text: string, entries: seq<Entry>): string {
    if entries == [] then text
    else
      var last := entries[|entries| - 1];
      Join(Split(Substitute(text, entries[..|entries| - 1]), Token(last.placeholder)), last.value)
  }

  function Redact(text: string, entries: seq<Entry>): string {
    ValuesAre(entries);
    RedactAll(text, Values(entries))
  }

  class SecretMaterial {
    const entries: seq<Entry>
    const values: seq<string>

    predicate Valid() {
      values == Values(entries) && NoneEmpty(values)
    }

    constructor (resolved: seq<Entry>)
      ensures Valid() && entries == resolved
    {
      ValuesAre(resolved);
      entries := resolved;
      values := Values(resolved);
    }

    method SubstituteIn(value: string) returns (out: string)
      ensures out == Substitute(value, entries)
    {
      out := value;
      for i := 0 to |entries|
        invariant out == Substitute(value, entries[..i])
      {
        assert entries[..i + 1][..i] == entries[..i];
        out := Join(Split(out, Token(entries[i].placeholder)), entries[i].value);
      }
      assert entries[..|entries|] == entries;
    }

    method RedactIn(text: string) returns (out: string)
      requires Valid()
      ensures out == Redact(text, entries)
    {
      out := text;
      for i := 0 to |values|
        invariant out == RedactAll(text, values[..i])
      {
        assert values[..i + 1][..i] == values[..i];
        out := Join(Split(out, values[i]), STARS);
      }
      assert values[..|values|] == values;
    }
  }

  // ------------------------------------------------------------------- the values

  predicate LongestFirst(values: seq<string>) {
    forall i, j :: 0 <= i < j < |values| ==> |values[i]| >= |values[j]|
  }

  lemma {:induction false} InsertIs(v: string, sorted: seq<string>)
    requires LongestFirst(sorted)
    ensures LongestFirst(InsertValue(v, sorted))
    ensures forall u :: u in InsertValue(v, sorted) <==> u == v || u in sorted
    ensures v != "" && NoneEmpty(sorted) ==> NoneEmpty(InsertValue(v, sorted))
  {
    if sorted != [] && |v| <= |sorted[0]| {
      InsertIs(v, sorted[1..]);
      var out := InsertValue(v, sorted);
      assert forall u :: u in InsertValue(v, sorted[1..]) ==> |u| <= |sorted[0]|;
      assert forall j :: 0 < j < |out| ==> out[j] == InsertValue(v, sorted[1..])[j - 1];
    }
  }

  lemma {:induction false} ValuesAre(entries: seq<Entry>)
    ensures LongestFirst(Values(entries)) && NoneEmpty(Values(entries))
    ensures forall v :: v in Values(entries) <==> v != "" && exists e :: e in entries && e.value == v
  {
    if entries != [] {
      var front, last := entries[..|entries| - 1], entries[|entries| - 1];
      ValuesAre(front);
      assert entries == front + [last];
      if last.value != "" {
        InsertIs(last.value, Values(front));
      }
    }
  }

  // -------------------------------------------------------------------- occurrences

  lemma OccursInLeft(a: string, b: string, word: string, i: nat)
    requires i + |word| <= |a|
    ensures OccursAt(a + b, word, i) <==> OccursAt(a, word, i)
  {
    assert (a + b)[i..i + |word|] == a[i..i + |word|];
  }

  lemma OccursInRight(a: string, b: string, word: string, i: nat)
    requires i >= |a|
    ensures OccursAt(a + b, word, i) <==> OccursAt(b, word, i - |a|)
  {
    if i + |word| <= |a + b| {
      assert (a + b)[i..i + |word|] == b[i - |a|..i - |a| + |word|];
    }
  }

  /** Neither end of the word is a star, and it holds no three of them in a row. */
  predicate Clean(word: string) {
    word != "" && word[0] != '*' && word[|word| - 1] != '*' && !Contains(word, STARS)
  }

  /** Such a word does not reach across the stars between two texts. */
  lemma NotAcross(a: string, b: string, word: string, i: nat)
    requires Clean(word) && OccursAt(a + (STARS + b), word, i)
    ensures (i + |word| <= |a| && OccursAt(a, word, i)) || (i >= |a| + 3 && OccursAt(b, word, i - |a| - 3))
  {
    var text := a + (STARS + b);
    assert text[i..i + |word|] == word;
    assert text[i] == word[0] && text[i + |word| - 1] == word[|word| - 1];
    assert text[|a|] == '*' && text[|a| + 1] == '*' && text[|a| + 2] == '*';
    if i + |word| <= |a| {
      OccursInLeft(a, STARS + b, word, i);
    } else if i >= |a| + 3 {
      OccursInRight(a, STARS + b, word, i);
      OccursInRight(STARS, b, word, i - |a|);
    } else {
      HoldsTheStars(text, word, i, |a|);
    }
  }

  lemma SliceOfSlice(text: string, i: nat, j: nat, a: nat, b: nat)
    requires i <= j <= |text| && a <= b <= j - i
    ensures text[i..j][a..b] == text[i + a..i + b]
  {
    forall m | 0 <= m < b - a ensures text[i..j][a..b][m] == text[i + a..i + b][m] {}
  }

  lemma HoldsTheStars(text: string, word: string, i: nat, k: nat)
    requires OccursAt(text, word, i) && i <= k && k + 3 <= i + |word| && text[k..k + 3] == STARS
    ensures Contains(word, STARS)
  {
    SliceOfSlice(text, i, i + |word|, k - i, k - i + 3);
    assert OccursAt(word, STARS, k - i);
  }

  lemma {:induction false} WordIsInAPart(parts: seq<string>, word: string)
    requires parts != [] && Clean(word) && Contains(Join(parts, STARS), word)
    ensures exists p :: p in parts && Contains(p, word)
  {
    var i: nat :| i <= |Join(parts, STARS)| && OccursAt(Join(parts, STARS), word, i);
    if |parts| == 1 {
      assert parts[0] in parts;
    } else {
      NotAcross(parts[0], Join(parts[1..], STARS), word, i);
      if i + |word| <= |parts[0]| && OccursAt(parts[0], word, i) {
        assert parts[0] in parts && Contains(parts[0], word);
      } else {
        assert Contains(Join(parts[1..], STARS), word);
        WordIsInAPart(parts[1..], word);
      }
    }
  }

  lemma PartsOfText(text: string, n: nat, word: string)
    requires n <= |text|
    ensures Contains(text[..n], word) ==> Contains(text, word)
    ensures Contains(text[n..], word) ==> Contains(text, word)
  {
    var a, b := text[..n], text[n..];
    assert text == a + b;
    if Contains(a, word) {
      var i: nat :| i <= |a| && OccursAt(a, word, i);
      OccursInLeft(a, b, word, i);
    }
    if Contains(b, word) {
      var i: nat :| i <= |b| && OccursAt(b, word, i);
      OccursInRight(a, b, word, i + n);
    }
  }

  lemma FirstPart(text: string, word: string, i: nat)
    requires word != "" && i == Find(text, word) <= |text|
    ensures !Contains(text[..i], word)
  {
    var a, b := text[..i], text[i..];
    assert text == a + b;
    forall k: nat | k <= |a| ensures !OccursAt(a, word, k) {
      if k + |word| <= i { OccursInLeft(a, b, word, k); }
    }
  }

  /** No part holds the separator. */
  lemma {:induction false} PartsLackWord(text: string, word: string, p: string)
    requires word != "" && p in Split(text, word)
    ensures !Contains(p, word)
    decreases |text|
  {
    var i := Find(text, word);
    if i <= |text| {
      FirstPart(text, word, i);
      if p != text[..i] {
        PartsLackWord(text[i + |word|..], word, p);
      }
    }
  }

  /** The parts are pieces of the text. */
  lemma {:induction false} PartsAre(text: string, word: string, p: string, w: string)
    requires word != "" && p in Split(text, word) && Contains(p, w)
    ensures Contains(text, w)
    decreases |text|
  {
    var i := Find(text, word);
    if i <= |text| {
      if p == text[..i] {
        PartsOfText(text, i, w);
      } else {
        PartsAre(text[i + |word|..], word, p, w);
        PartsOfText(text, i + |word|, w);
      }
    }
  }

  /** Replacing a value brings no clean word about, and leaves the value nowhere if it is clean itself. */
  lemma OneRedaction(text: string, value: string, word: string)
    requires value != "" && Clean(word)
    ensures Contains(Join(Split(text, value), STARS), word) ==> word != value && Contains(text, word)
  {
    var parts := Split(text, value);
    if Contains(Join(parts, STARS), word) {
      WordIsInAPart(parts, word);
      var p :| p in parts && Contains(p, word);
      PartsAre(text, value, p, word);
      if word == value {
        PartsLackWord(text, value, p);
      }
    }
  }

  lemma {:induction false} NoneLeft(text: string, values: seq<string>, v: string)
    requires NoneEmpty(values) && Clean(v) && v in values
    ensures !Contains(RedactAll(text, values), v)
  {
    var front, last := values[..|values| - 1], values[|values| - 1];
    assert values == front + [last];
    OneRedaction(RedactAll(text, front), last, v);
    if v != last {
      NoneLeft(text, front, v);
    }
  }

  /**
   Redaction is total: whatever the text, and whatever the other values are, overlapping or containing
   each other, a value that neither starts nor ends with a star nor holds three in a row is nowhere in
   the output.
   */
  lemma RedactionIsTotal(text: string, entries: seq<Entry>, e: Entry)
    requires e in entries && Clean(e.value)
    ensures !Contains(Redact(text, entries), e.value)
  {
    ValuesAre(entries);
    NoneLeft(text, Values(entries), e.value);
  }

  lemma NoStarIsClean(word: string)
    requires word != "" && '*' !in word
    ensures Clean(word)
  {
    forall i: nat | i <= |word| ensures !OccursAt(word, STARS, i) {
      if i + 3 <= |word| {
        assert word[i..i + 3][0] == word[i] && word[i] in word;
      }
    }
  }

  /** So in particular a value without a star. */
  lemma StarFreeIsRedacted(text: string, entries: seq<Entry>, e: Entry)
    requires e in entries && e.value != "" && '*' !in e.value
    ensures !Contains(Redact(text, entries), e.value)
  {
    NoStarIsClean(e.value);
    RedactionIsTotal(text, entries, e);
  }

  // ---------------------------------------------------------------- longest first

  lemma Untouched(text: string, word: string)
    requires word != "" && !Contains(text, word)
    ensures Join(Split(text, word), STARS) == text
  {
    FindNone(text, word);
  }

  lemma FindNone(text: string, word: string)
    requires !Contains(text, word)
    ensures Find(text, word) > |text|
  {
  }

  lemma WholeReplaced(word: string)
    requires word != ""
    ensures Join(Split(word, word), STARS) == STARS
  {
    assert word[..|word|] == word && word[0 + |word|..] == "";
    assert Find(word, word) == 0;
    assert Split("", word) == [""];
    var parts := [word[..0]] + Split("", word);
    assert Split(word, word) == parts && parts[1..] == [""];
    assert Join(parts, STARS) == "" + (STARS + "");
  }

  lemma TooLong(text: string, word: string)
    requires |word| >= |text| && word != text
    ensures !Contains(text, word)
  {
    forall i: nat | i <= |text| ensures !OccursAt(text, word, i) {
      assert |word| == |text| && i == 0 ==> text[i..i + |word|] == text;
    }
  }

  lemma NotInStars(word: string)
    requires word !in {"", "*", "**", STARS}
    ensures !Contains(STARS, word)
  {
    forall i: nat | i <= 3 ensures !OccursAt(STARS, word, i) {
      assert i + 1 <= 3 ==> STARS[i..i + 1] == "*";
      assert i + 2 <= 3 ==> STARS[i..i + 2] == "**";
      assert i + 3 <= 3 ==> STARS[i..i + 3] == STARS;
    }
  }

  lemma {:induction false} KeptByLonger(v: string, values: seq<string>)
    requires NoneEmpty(values) && forall i :: 0 <= i < |values| ==> |values[i]| >= |v| && values[i] != v
    ensures RedactAll(v, values) == v
  {
    if values != [] {
      var n := |values| - 1;
      KeptByLonger(v, values[..n]);
      TooLong(v, values[n]);
      Untouched(v, values[n]);
    }
  }

  /** After `v` it is the turn of a value of one or two stars. */
  predicate StarsAfter(values: seq<string>, v: string) {
    exists i, j :: 0 <= i < j < |values| && values[i] == v && values[j] in {"*", "**"}
  }

  lemma {:induction false} JoinGrows(text: string, word: string, glue: string)
    requires 0 < |word| <= |glue|
    ensures |Join(Split(text, word), glue)| >= |text|
    decreases |text|
  {
    var i := Find(text, word);
    if i <= |text| {
      JoinGrows(text[i + |word|..], word, glue);
      JoinTwo(text[..i], Split(text[i + |word|..], word), glue);
    }
  }

  lemma StarsGrow(word: string)
    requires word in {"*", "**"}
    ensures |Join(Split(STARS, word), STARS)| >= 4
  {
    var rest := STARS[0 + |word|..];
    assert OccursAt(STARS, word, 0) && Find(STARS, word) == 0;
    SplitAt(STARS, word, 0);
    JoinTwo(STARS[..0], Split(rest, word), STARS);
    JoinGrows(rest, word, STARS);
  }

  lemma StarsAfterMore(front: seq<string>, last: string, v: string)
    requires v in front
    ensures StarsAfter(front + [last], v) <==> StarsAfter(front, v) || last in {"*", "**"}
  {
    var values := front + [last];
    var i :| 0 <= i < |front| && front[i] == v;
    if last in {"*", "**"} {
      assert values[i] == v && values[|front|] == last;
    } else if StarsAfter(front, v) {
      var a, b :| 0 <= a < b < |front| && front[a] == v && front[b] in {"*", "**"};
      assert values[a] == v && values[b] == front[b];
    }
  }

  /** One more value, after the stars have been written. */
  lemma OneMore(out: string, last: string, grown: bool)
    requires last != "" && (if grown then |out| >= 4 && |last| <= 3 else out == STARS)
    ensures var next := Join(Split(out, last), STARS);
            if grown || last in {"*", "**"} then |next| >= 4 else next == STARS
  {
    if grown {
      JoinGrows(out, last, STARS);
    } else if last in {"*", "**"} {
      StarsGrow(last);
    } else if last == STARS {
      WholeReplaced(STARS);
    } else {
      NotInStars(last);
      Untouched(STARS, last);
    }
  }

  lemma {:induction false} WholeValue(v: string, values: seq<string>)
    requires LongestFirst(values) && NoneEmpty(values) && v in values
    ensures if StarsAfter(values, v) then |RedactAll(v, values)| >= 4 else RedactAll(v, values) == STARS
  {
    var n := |values| - 1;
    var front, last := values[..n], values[n];
    assert values == front + [last];
    if v in front {
      WholeValue(v, front);
      StarsAfterMore(front, last, v);
      OneMore(RedactAll(v, front), last, StarsAfter(front, v));
    } else {
      assert forall i :: 0 <= i < n ==> front[i] == values[i] && front[i] in front;
      KeptByLonger(v, front);
      WholeReplaced(v);
    }
  }

  /** A value on its own becomes exactly the stars, also where it contains shorter values, exactly if
      no value of one or two stars has its turn after it. */
  lemma NoSuffixLeft(entries: seq<Entry>, e: Entry)
    requires e in entries && e.value != ""
    ensures Redact(e.value, entries) == STARS <==> !StarsAfter(Values(entries), e.value)
  {
    ValuesAre(entries);
    WholeValue(e.value, Values(entries));
  }

  lemma StartsWith(a: string, b: string)
    requires a != "" && !Contains(b, a)
    ensures Join(Split(a + b, a), STARS) == STARS + b
  {
    assert (a + b)[..|a|] == a && (a + b)[0 + |a|..] == b;
    assert Find(a + b, a) == 0;
    FindNone(b, a);
    assert Split(b, a) == [b];
    var parts := [(a + b)[..0]] + [b];
    assert Split(a + b, a) == parts && parts[1..] == [b];
    assert Join(parts, STARS) == "" + (STARS + b);
  }

  /** The other order would leave the longer value's end to be read. */
  lemma ShortestFirstLeaks(v: string, end: string)
    requires v != "" && '*' !in v && end != "" && '*' !in end && !Contains(end, v)
    ensures RedactAll(v + end, [v, v + end]) == STARS + end
  {
    var values := [v, v + end];
    assert values[..1] == [v] && [v][..0] == [];
    assert RedactAll(v + end, []) == v + end;
    StartsWith(v, end);
    assert RedactAll(v + end, [v]) == STARS + end;
    assert !Contains(STARS + end, v + end) by {
      assert '*' !in v + end;
      forall i: nat | i <= |STARS + end| ensures !OccursAt(STARS + end, v + end, i) {
        if i + |v + end| <= |STARS + end| {
          assert (STARS + end)[i..i + |v + end|][0] == (STARS + end)[i];
          assert i >= 3 || (STARS + end)[i] == '*';
          assert (v + end)[0] in v + end;
        }
      }
    }
    Untouched(STARS + end, v + end);
  }

  // ------------------------------------------------------ which values can leak

  lemma OneValue(text: string, v: string)
    requires v != ""
    ensures RedactAll(text, [v]) == Join(Split(text, v), STARS)
  {
    assert [v][..0] == [] && RedactAll(text, []) == text;
  }

  lemma SplitAt(text: string, v: string, i: nat)
    requires v != "" && i == Find(text, v) <= |text|
    ensures Split(text, v) == [text[..i]] + Split(text[i + |v|..], v)
  {
  }

  lemma SplitOnce(text: string, v: string, i: nat)
    requires v != "" && i <= |text| && OccursAt(text, v, i) && |text| - i - |v| < |v|
    requires forall k: nat :: k < i ==> !OccursAt(text, v, k)
    ensures Split(text, v) == [text[..i]] + [text[i + |v|..]]
  {
    var rest := text[i + |v|..];
    assert Find(text, v) == i;
    SplitAt(text, v, i);
    TooLongToHold(rest, v);
    SplitNone(rest, v);
  }

  lemma SplitNone(text: string, v: string)
    requires v != "" && !Contains(text, v)
    ensures Split(text, v) == [text]
  {
    FindNone(text, v);
  }

  /** One value, redacted where it first occurs in a text that goes on too short to hold it again. */
  lemma RedactedOnce(text: string, v: string, i: nat)
    requires v != "" && i <= |text| && OccursAt(text, v, i) && |text| - i - |v| < |v|
    requires forall k: nat :: k < i ==> !OccursAt(text, v, k)
    ensures RedactAll(text, [v]) == text[..i] + (STARS + text[i + |v|..])
  {
    OneValue(text, v);
    SplitOnce(text, v, i);
    JoinTwo(text[..i], [text[i + |v|..]], STARS);
  }

  lemma JoinTwo(head: string, more: seq<string>, glue: string)
    requires more != []
    ensures Join([head] + more, glue) == head + (glue + Join(more, glue))
  {
    assert ([head] + more)[1..] == more;
  }

  lemma TooLongToHold(text: string, word: string)
    requires |text| < |word|
    ensures !Contains(text, word)
  {
  }

  /** Redacting the value alone leaves it in this text. */
  predicate Leaks(v: string, text: string)
    requires v != ""
  {
    Contains(RedactAll(text, [v]), v)
  }

  lemma FirstStar(v: string) returns (text: string)
    requires v != "" && v[0] == '*'
    ensures Leaks(v, text)
  {
    text := v + v[1..];
    assert text[0..0 + |v|] == v && text[0 + |v|..] == v[1..] && text[..0] == "";
    RedactedOnce(text, v, 0);
    var out := "" + (STARS + v[1..]);
    assert out[2..2 + |v|] == v;
    assert OccursAt(out, v, 2);
  }

  /** Earlier, a character of the text would have to be the value's first and its last. */
  lemma LastStarIsFirst(v: string, k: nat)
    requires v != "" && v[0] != '*' && v[|v| - 1] == '*' && k < |v| - 1
    ensures !OccursAt(v[..|v| - 1] + v, v, k)
  {
    var n := |v| - 1;
    var text := v[..n] + v;
    assert text[k] == v[k] && text[k + n] == v[k];
    if k + |v| <= |text| {
      assert text[k..k + |v|][0] == text[k] && text[k..k + |v|][n] == text[k + n];
    }
  }

  lemma EndsInStars(v: string)
    requires v != "" && v[|v| - 1] == '*'
    ensures Contains(v[..|v| - 1] + (STARS + ""), v)
  {
    var out := v[..|v| - 1] + (STARS + "");
    assert out[0..0 + |v|] == v;
    assert OccursAt(out, v, 0);
  }

  lemma LastStar(v: string) returns (text: string)
    requires v != "" && v[0] != '*' && v[|v| - 1] == '*'
    ensures Leaks(v, text)
  {
    var n := |v| - 1;
    text := v[..n] + v;
    forall k: nat | k < n ensures !OccursAt(text, v, k) { LastStarIsFirst(v, k); }
    assert text[n..n + |v|] == v && text[n + |v|..] == "" && text[..n] == v[..n];
    RedactedOnce(text, v, n);
    EndsInStars(v);
  }

  lemma StarsMoved(text: string, v: string, i: nat, k: nat)
    requires k < i && i + |v| <= |text| && text[i..i + |v|] == v && OccursAt(text, v, k) && OccursAt(v, STARS, i)
    ensures OccursAt(v, STARS, k)
  {
    SliceOfSlice(text, k, k + |v|, i, i + 3);
    SliceOfSlice(text, i, i + |v|, k, k + 3);
  }

  /** Earlier, the stars of the value would be found in it before its first three. */
  lemma StarsNotEarlier(v: string, i: nat, b: string, k: nat)
    requires i <= |v| && OccursAt(v, STARS, i) && (forall j: nat :: j < i ==> !OccursAt(v, STARS, j)) && k < i
    ensures !OccursAt(v[..i] + (v + b), v, k)
  {
    var text := v[..i] + (v + b);
    assert text[i..i + |v|] == v;
    if OccursAt(text, v, k) {
      StarsMoved(text, v, i, k);
    }
  }

  lemma Middle(a: string, v: string, b: string)
    ensures var text := a + (v + b);
            text[..|a|] == a && text[|a|..|a| + |v|] == v && text[|a| + |v|..] == b
  {
  }

  lemma AroundStars(v: string, i: nat)
    requires OccursAt(v, STARS, i)
    ensures v == v[..i] + (STARS + v[i + 3..])
  {
    assert v == v[..i] + (v[i..i + 3] + v[i + 3..]);
  }

  lemma ContainsItself(v: string)
    ensures Contains(v, v)
  {
    assert v[0..0 + |v|] == v;
    assert OccursAt(v, v, 0);
  }

  /** Where the value is found first, the stars put back what is around them. */
  lemma PutBack(text: string, v: string, i: nat)
    requires v != "" && i + |v| <= |text| && text[i..i + |v|] == v
    requires forall k: nat :: k < i ==> !OccursAt(text, v, k)
    requires v == text[..i] + (STARS + text[i + |v|..])
    ensures Leaks(v, text)
  {
    RedactedOnce(text, v, i);
    ContainsItself(v);
  }

  lemma ThreeStars(v: string) returns (text: string)
    requires v != "" && Contains(v, STARS)
    ensures Leaks(v, text)
  {
    var i := Find(v, STARS);
    var a, b := v[..i], v[i + 3..];
    text := a + (v + b);
    assert forall k: nat :: k < i ==> !OccursAt(text, v, k) by {
      forall k: nat | k < i ensures !OccursAt(text, v, k) { StarsNotEarlier(v, i, b, k); }
    }
    Middle(a, v, b);
    AroundStars(v, i);
    PutBack(text, v, i);
  }

  /** Of one value alone: some text makes it come about again from the stars themselves exactly if it
      starts or ends with a star, or holds three in a row. */
  lemma LeaksIff(v: string)
    requires v != ""
    ensures (exists text :: Leaks(v, text)) <==> !Clean(v)
  {
    if Clean(v) {
      forall text ensures !Leaks(v, text) {
        OneValue(text, v);
        OneRedaction(text, v, v);
      }
    } else if v[0] == '*' {
      var text := FirstStar(v);
    } else if v[|v| - 1] == '*' {
      var text := LastStar(v);
    } else {
      var text := ThreeStars(v);
    }
  }

  /** Which value is redacted from every text, whatever else there is to redact: exactly those. */
  lemma RedactedAlwaysIff(e: Entry)
    requires e.value != ""
    ensures (forall text, entries :: e in entries ==> !Contains(Redact(text, entries), e.value)) <==> Clean(e.value)
  {
    if Clean(e.value) {
      forall text, entries | e in entries ensures !Contains(Redact(text, entries), e.value) {
        RedactionIsTotal(text, entries, e);
      }
    } else {
      LeaksIff(e.value);
      var text :| Leaks(e.value, text);
      assert [e][..0] == [] && Values([e][..0]) == [] && Values([e]) == [e.value];
      assert Contains(Redact(text, [e]), e.value);
    }
  }
}
