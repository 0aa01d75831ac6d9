/**
 The incremental parser of server-sent events (WHATWG HTML Living Standard, sections 9.2.5
 and 9.2.6): lines end in CR LF, LF or CR; a blank line dispatches the frame.

 Text is decoded characters; decoding bytes is not part of this model.
 */
module SseParser {
  import opened Wrappers

  datatype Frame = Frame(id: Option<string>, event: Option<string>, data: Option<string>, retry: Option<nat>)

  const NO_FRAME := Frame(None, None, None, None)

  /** What has been read of the frame under way. */
  datatype Pending = Pending(frame: Frame, data: seq<string>, sawField: bool, chars: nat)

  const NOTHING := Pending(NO_FRAME, [], false, 0)

  // -------------------------------------------------------------------- lines

  /** The index of the first CR or LF, or the length of the text. */
  function Break(text: string): (i: nat)
    ensures i <= |text|
    ensures forall k :: 0 <= k < i ==> text[k] != '\r' && text[k] != '\n'
    ensures i < |text| ==> text[i] == '\r' || text[i] == '\n'
  {
    if text == "" || text[0] == '\r' || text[0] == '\n' then 0 else 1 + Break(text[1..])
  }

  /** Where the text continues after the line break at `i`. */
  function Past(text: string, i: nat): (j: nat)
    requires i < |text|
    ensures i < j <= |text|
  {
    if text[i] == '\r' && i + 1 < |text| && text[i + 1] == '\n' then i + 2 else i + 1
  }

  function IndexOf(line: string, c: char): (i: nat)
    ensures i <= |line|
    ensures forall k :: 0 <= k < i ==> line[k] != c
    ensures i < |line| ==> line[i] == c
  {
    if line == "" || line[0] == c then 0 else 1 + IndexOf(line[1..], c)
  }

  function JoinLf(parts: seq<string>): string
    requires parts != []
  {
    if |parts| == 1 then parts[0] else parts[0] + "\n" + JoinLf(parts[1..])
  }

  predicate Digit(c: char) { '0' <= c <= '9' }

  predicate AllDigits(s: string) {
    s != "" && forall c :: c in s ==> Digit(c)
  }

  function DigitValue(c: char): (d: nat)
    requires Digit(c)
    ensures d < 10
  {
    c as int - '0' as int
  }

  function NatOf(s: string): nat
    requires forall c :: c in s ==> Digit(c)
  {
    if s == "" then 0 else NatOf(s[..|s| - 1]) * 10 + DigitValue(s[|s| - 1])
  }

  function Field(p: Pending, name: string, value: string): Pending {
    var q := p.(sawField := true);
    if name == "id" then (if '\0' in value then q else q.(frame := q.frame.(id := Some(value))))
    else if name == "event" then q.(frame := q.frame.(event := Some(value)))
    else if name == "data" then q.(data := q.data + [value])
    else if name == "retry" then
      (if AllDigits(value) then q.(frame := q.frame.(retry := Some(NatOf(value)))) else q)
    else q
  }

  /** Exactly one leading space of the value is dropped. */
  function OneSpaceOff(value: string): string {
    if value != "" && value[0] == ' ' then value[1..] else value
  }

  /** A line that is not blank: a comment, or a field. */
  function ReadLine(p: Pending, line: string): Pending
    requires line != ""
  {
    if line[0] == ':' then p
    else
      var colon := IndexOf(line, ':');
      if colon == |line| then Field(p, line, "")
      else Field(p, line[..colon], OneSpaceOff(line[colon + 1..]))
  }

  /** What a blank line dispatches: nothing, if no field was seen. */
  function Dispatched(p: Pending): seq<Frame> {
    if !p.sawField then []
    else if p.data == [] then [p.frame]
    else [p.frame.(data := Some(JoinLf(p.data)))]
  }

  // --------------------------------------------------------------------- text

  predicate Plain(line: string) {
    '\r' !in line && '\n' !in line
  }

  /** A text cut at its line breaks: the complete lines, and the unfinished one. */
  datatype Lexed = Lexed(lines: seq<string>, rest: string)

  function Lex(text: string): Lexed
    decreases |text|
  {
    var i := Break(text);
    if i == |text| then Lexed([], text)
    else
      var tail := Lex(text[Past(text, i)..]);
      Lexed([text[..i]] + tail.lines, tail.rest)
  }

  datatype Fed = Fed(frames: seq<Frame>, pending: Pending, tooLarge: bool)

  /** One complete line: counted against the limit, then read or dispatched. */
  function FeedLine(p: Pending, line: string, limit: nat): Fed {
    var counted := p.(chars := p.chars + |line|);
    if counted.chars > limit then Fed([], counted, true)
    else if line == "" then Fed(Dispatched(counted), NOTHING, false)
    else Fed([], ReadLine(counted, line), false)
  }

  function Feed(p: Pending, lines: seq<string>, limit: nat): Fed
    decreases lines
  {
    if lines == [] then Fed([], p, false)
    else
      var f := FeedLine(p, lines[0], limit);
      if f.tooLarge then f else Prepend(f.frames, Feed(f.pending, lines[1..], limit))
  }

  function Prepend(frames: seq<Frame>, f: Fed): Fed {
    f.(frames := frames + f.frames)
  }

  datatype Outcome = Done | TooLarge | BadLimit

  /** The frames of a cut text, and whether a frame or the unfinished line passed the limit. */
  function Verdict(f: Fed, rest: string, limit: nat): (seq<Frame>, Outcome) {
    (f.frames, if f.tooLarge || f.pending.chars + |rest| > limit then TooLarge else Done)
  }

  /** Parsing a whole text in one piece. */
  function OneShot(text: string, limit: nat): (seq<Frame>, Outcome) {
    Verdict(Feed(NOTHING, Lex(text).lines, limit), Lex(text).rest, limit)
  }

  const MAX_SAFE_INTEGER := 9_007_199_254_740_991

  predicate GoodLimit(limit: int) {
    1 <= limit <= MAX_SAFE_INTEGER
  }

  // -------------------------------------------------------------- line breaks

  /** Lines and an unfinished line, written out with LF alone. */
  function Unlex(lines: seq<string>, rest: string): string {
    if lines == [] then rest else lines[0] + ("\n" + Unlex(lines[1..], rest))
  }

  /** The text with every line break written as one LF. */
  function Normal(text: string): string {
    Unlex(Lex(text).lines, Lex(text).rest)
  }

  function ConcatNormal(chunks: seq<string>): string {
    if chunks == [] then "" else Normal(chunks[0]) + ConcatNormal(chunks[1..])
  }

  function Concat(chunks: seq<string>): string {
    if chunks == [] then "" else chunks[0] + Concat(chunks[1..])
  }

  lemma {:induction false} BreakPrefix(line: string, tail: string)
    requires Plain(line)
    ensures Break(line + tail) == |line| + Break(tail)
  {
    if line == "" {
      assert line + tail == tail;
    } else {
      assert (line + tail)[1..] == line[1..] + tail;
      BreakPrefix(line[1..], tail);
    }
  }

  lemma PlainIffNoBreak(line: string)
    ensures Plain(line) <==> Break(line) == |line|
  {
    if Plain(line) {
      BreakPrefix(line, "");
      assert line + "" == line;
    } else if '\r' in line {
      var k :| 0 <= k < |line| && line[k] == '\r';
    } else {
      var k :| 0 <= k < |line| && line[k] == '\n';
    }
  }

  lemma {:induction false} LexIsPlain(text: string)
    ensures Plain(Lex(text).rest) && forall l :: l in Lex(text).lines ==> Plain(l)
    decreases |text|
  {
    var i := Break(text);
    PlainIffNoBreak(text);
    if i < |text| {
      LexIsPlain(text[Past(text, i)..]);
    }
  }

  lemma LexFirstLine(line: string, tail: string)
    requires Plain(line)
    ensures Lex(line + ("\n" + tail)) == Lexed([line] + Lex(tail).lines, Lex(tail).rest)
  {
    var text := line + ("\n" + tail);
    BreakPrefix(line, "\n" + tail);
    assert Break("\n" + tail) == 0;
    assert text[..|line|] == line && text[|line|] == '\n' && text[|line| + 1..] == tail;
  }

  lemma LexPlain(rest: string)
    requires Plain(rest)
    ensures Lex(rest) == Lexed([], rest)
  {
    PlainIffNoBreak(rest);
  }

  lemma Regroup(a: string, b: string, c: string)
    ensures (a + ("\n" + b)) + c == a + ("\n" + (b + c))
  {
  }

  lemma RegroupLines(lines: seq<string>, more: seq<string>)
    requires lines != []
    ensures [lines[0]] + (lines[1..] + more) == lines + more
  {
  }

  /** Cutting up the written-out lines gives them back, and more text continues the rest. */
  lemma {:induction false} LexUnlex(lines: seq<string>, rest: string, more: string)
    requires Plain(rest) && forall l :: l in lines ==> Plain(l)
    ensures Lex(Unlex(lines, rest) + more) == Lexed(lines + Lex(rest + more).lines, Lex(rest + more).rest)
  {
    var l := Lex(rest + more);
    if lines == [] {
      assert lines + l.lines == l.lines;
    } else {
      var tail := Unlex(lines[1..], rest);
      LexUnlex(lines[1..], rest, more);
      Regroup(lines[0], tail, more);
      RegroupLines(lines, l.lines);
      LexFirstLine(lines[0], tail + more);
    }
  }

  /** The chunks cut up one after the other, the unfinished line carried over. */
  function LexChunks(rest: string, chunks: seq<string>): Lexed
    decreases chunks
  {
    if chunks == [] then Lexed([], rest)
    else
      var l := Lex(rest + chunks[0]);
      var tail := LexChunks(l.rest, chunks[1..]);
      Lexed(l.lines + tail.lines, tail.rest)
  }

  lemma {:induction false} LexChunksIsLex(rest: string, chunks: seq<string>)
    requires Plain(rest)
    ensures LexChunks(rest, chunks) == Lex(rest + ConcatNormal(chunks))
    decreases chunks
  {
    if chunks == [] {
      assert rest + ConcatNormal(chunks) == rest;
      LexPlain(rest);
    } else {
      var l := Lex(rest + chunks[0]);
      LexIsPlain(rest + chunks[0]);
      LexChunksIsLex(l.rest, chunks[1..]);
      PrefixedNormal(rest, chunks[0], ConcatNormal(chunks[1..]));
      Assoc(rest, Normal(chunks[0]), ConcatNormal(chunks[1..]));
    }
  }

  lemma PrefixedNormal(rest: string, chunk: string, more: string)
    requires Plain(rest)
    ensures var l := Lex(rest + chunk);
            Lex((rest + Normal(chunk)) + more) == Lexed(l.lines + Lex(l.rest + more).lines, Lex(l.rest + more).rest)
  {
    LexIsPlain(rest + chunk);
    NormalIsUnlexed(rest, chunk);
    LexUnlex(Lex(rest + chunk).lines, Lex(rest + chunk).rest, more);
  }

  lemma NormalIsUnlexed(rest: string, chunk: string)
    requires Plain(rest)
    ensures rest + Normal(chunk) == Unlex(Lex(rest + chunk).lines, Lex(rest + chunk).rest)
  {
    var l := Lex(chunk);
    LexPrefixed(rest, chunk);
    if l.lines != [] {
      var lines := [rest + l.lines[0]] + l.lines[1..];
      assert lines[1..] == l.lines[1..];
      Assoc(rest, l.lines[0], "\n" + Unlex(l.lines[1..], l.rest));
    }
  }

  lemma Assoc(a: string, b: string, c: string)
    ensures a + (b + c) == (a + b) + c
  {
  }

  lemma Slices(a: string, b: string, text: string, i: nat)
    requires text == a + b && i <= |b|
    ensures text[..|a| + i] == a + b[..i] && text[|a| + i..] == b[i..]
  {
  }

  lemma PastAfterPrefix(rest: string, chunk: string, text: string, i: nat)
    requires text == rest + chunk && i < |chunk|
    ensures |text| == |rest| + |chunk| && Past(text, |rest| + i) == |rest| + Past(chunk, i)
  {
    assert forall k :: 0 <= k < |chunk| ==> (rest + chunk)[|rest| + k] == chunk[k];
  }

  /** `l`, with `rest` in front of it. */
  function Grown(rest: string, l: Lexed): Lexed {
    if l.lines == [] then Lexed([], rest + l.rest)
    else Lexed([rest + l.lines[0]] + l.lines[1..], l.rest)
  }

  lemma GrownLine(rest: string, line: string, lines: seq<string>, last: string)
    ensures Grown(rest, Lexed([line] + lines, last)) == Lexed([rest + line] + lines, last)
  {
    assert ([line] + lines)[1..] == lines;
  }

  lemma LexCut(text: string, i: nat, j: nat, head: string, tail: string)
    requires i == Break(text) < |text| && j == Past(text, i)
    requires text[..i] == head && text[j..] == tail
    ensures Lex(text) == Lexed([head] + Lex(tail).lines, Lex(tail).rest)
  {
  }

  lemma LexPrefixedStep(rest: string, chunk: string, text: string, i: nat, j: nat, head: string, tail: string)
    requires Plain(rest) && text == rest + chunk
    requires i == Break(chunk) < |chunk| && j == Past(chunk, i)
    requires head == rest + chunk[..i] && tail == chunk[j..]
    ensures Lex(text) == Lexed([head] + Lex(tail).lines, Lex(tail).rest)
  {
    assert Break(text) == |rest| + i by { BreakPrefix(rest, chunk); }
    PastAfterPrefix(rest, chunk, text, i);
    assert text[..|rest| + i] == head by { Slices(rest, chunk, text, i); }
    assert text[|rest| + j..] == tail by { Slices(rest, chunk, text, j); }
    LexCut(text, |rest| + i, |rest| + j, head, tail);
  }

  /** An unfinished line in front of a text becomes part of its first line. */
  lemma LexPrefixed(rest: string, chunk: string)
    requires Plain(rest)
    ensures Lex(rest + chunk) == Grown(rest, Lex(chunk))
  {
    var i := Break(chunk);
    if i < |chunk| {
      var j := Past(chunk, i);
      var tail := Lex(chunk[j..]);
      LexCut(chunk, i, j, chunk[..i], chunk[j..]);
      LexPrefixedStep(rest, chunk, rest + chunk, i, j, rest + chunk[..i], chunk[j..]);
      GrownLine(rest, chunk[..i], tail.lines, tail.rest);
    } else {
      BreakPrefix(rest, chunk);
    }
  }

  // --------------------------------------------------- chunk by chunk = one shot

  lemma {:induction false} FeedConcat(p: Pending, xs: seq<string>, ys: seq<string>, limit: nat)
    ensures var f := Feed(p, xs, limit);
            Feed(p, xs + ys, limit) == if f.tooLarge then f else Prepend(f.frames, Feed(f.pending, ys, limit))
    decreases xs
  {
    if xs == [] {
      assert xs + ys == ys;
      var g := Feed(p, ys, limit);
      assert [] + g.frames == g.frames;
    } else {
      var first := FeedLine(p, xs[0], limit);
      if !first.tooLarge {
        assert (xs + ys)[1..] == xs[1..] + ys;
        FeedConcat(first.pending, xs[1..], ys, limit);
        var f := Feed(first.pending, xs[1..], limit);
        if !f.tooLarge {
          PrependTwice(first.frames, f.frames, Feed(f.pending, ys, limit));
        }
      }
    }
  }

  lemma PrependTwice(a: seq<Frame>, b: seq<Frame>, f: Fed)
    ensures Prepend(a, Prepend(b, f)) == Prepend(a + b, f)
  {
    assert a + (b + f.frames) == (a + b) + f.frames;
  }

  /** What the loop over the chunks does: the limit is checked on every line and after every chunk. */
  function Chunked(p: Pending, rest: string, chunks: seq<string>, limit: nat): (seq<Frame>, Outcome)
    decreases chunks
  {
    if chunks == [] then ([], Done)
    else
      var l := Lex(rest + chunks[0]);
      var f := Feed(p, l.lines, limit);
      if f.tooLarge || f.pending.chars + |l.rest| > limit then (f.frames, TooLarge)
      else
        Later(f.frames, Chunked(f.pending, l.rest, chunks[1..], limit))
  }

  /** A line already past the limit stays so, whatever follows it. */
  lemma PastLimitStays(p: Pending, rest: string, chunks: seq<string>, limit: nat)
    requires Plain(rest) && p.chars + |rest| > limit
    ensures var l := LexChunks(rest, chunks);
            Verdict(Feed(p, l.lines, limit), l.rest, limit) == ([], TooLarge)
  {
    LexChunksIsLex(rest, chunks);
    LexPrefixed(rest, ConcatNormal(chunks));
  }

  lemma {:induction false} ChunkedIsVerdict(p: Pending, rest: string, chunks: seq<string>, limit: nat)
    requires Plain(rest) && p.chars + |rest| <= limit
    ensures var l := LexChunks(rest, chunks);
            Chunked(p, rest, chunks, limit) == Verdict(Feed(p, l.lines, limit), l.rest, limit)
    decreases chunks
  {
    if chunks != [] {
      var l := Lex(rest + chunks[0]);
      var tail := LexChunks(l.rest, chunks[1..]);
      var f := Feed(p, l.lines, limit);
      LexIsPlain(rest + chunks[0]);
      FeedConcat(p, l.lines, tail.lines, limit);
      if !f.tooLarge {
        if f.pending.chars + |l.rest| > limit {
          PastLimitStays(f.pending, l.rest, chunks[1..], limit);
          assert f.frames + [] == f.frames;
        } else {
          ChunkedIsVerdict(f.pending, l.rest, chunks[1..], limit);
        }
      }
    }
  }

  /**
   However the text is chunked, the frames and the size failure are those of parsing the whole
   text in one piece, where a chunk's own line breaks count as one LF each.
   */
  lemma ChunkedIsOneShot(chunks: seq<string>, limit: nat)
    ensures Chunked(NOTHING, "", chunks, limit) == OneShot(ConcatNormal(chunks), limit)
  {
    LexChunksIsLex("", chunks);
    assert "" + ConcatNormal(chunks) == ConcatNormal(chunks);
    ChunkedIsVerdict(NOTHING, "", chunks, limit);
  }

  /** No chunk ends in the CR of a CR LF pair whose LF opens the text that follows. */
  predicate NoSplitPair(chunks: seq<string>)
    decreases chunks
  {
    chunks == [] || (!SplitPair(chunks[0], Concat(chunks[1..])) && NoSplitPair(chunks[1..]))
  }

  predicate SplitPair(a: string, b: string) {
    a != "" && b != "" && a[|a| - 1] == '\r' && b[0] == '\n'
  }

  /** Cutting up a text in two, away from a CR LF pair. */
  lemma {:induction false} LexConcat(a: string, b: string)
    requires !SplitPair(a, b)
    ensures Lex(a + b) == Lexed(Lex(a).lines + Lex(Lex(a).rest + b).lines, Lex(Lex(a).rest + b).rest)
    decreases |a|
  {
    var i := Break(a);
    PlainIffNoBreak(a);
    if i == |a| {
      assert Lex(a).lines + Lex(a + b).lines == Lex(a + b).lines;
    } else {
      var j := Past(a, i);
      LexConcatStep(a, b, a + b, i, j);
      LexConcat(a[j..], b);
      ConsAssoc(a[..i], Lex(a[j..]).lines, Lex(Lex(a[j..]).rest + b).lines);
    }
  }

  lemma ConsAssoc(line: string, xs: seq<string>, ys: seq<string>)
    ensures [line] + (xs + ys) == ([line] + xs) + ys
  {
  }

  lemma BreakStays(a: string, b: string)
    requires Break(a) < |a|
    ensures Break(a + b) == Break(a)
  {
    if Break(a) > 0 {
      assert (a + b)[1..] == a[1..] + b;
      BreakStays(a[1..], b);
    }
  }

  lemma SlicesLeft(a: string, b: string, text: string, i: nat)
    requires text == a + b && i <= |a|
    ensures text[..i] == a[..i] && text[i..] == a[i..] + b
  {
  }

  lemma LexConcatStep(a: string, b: string, text: string, i: nat, j: nat)
    requires text == a + b && !SplitPair(a, b)
    requires i == Break(a) < |a| && j == Past(a, i)
    ensures Lex(text) == Lexed([a[..i]] + Lex(a[j..] + b).lines, Lex(a[j..] + b).rest)
    ensures !SplitPair(a[j..], b)
  {
    assert Break(text) == i by { BreakStays(a, b); }
    assert Past(text, i) == j;
    assert text[..i] == a[..i] by { SlicesLeft(a, b, text, i); }
    assert text[j..] == a[j..] + b by { SlicesLeft(a, b, text, j); }
    LexCut(text, i, j, a[..i], a[j..] + b);
  }

  lemma {:induction false} NoSplitPairSameLex(rest: string, chunks: seq<string>)
    requires Plain(rest) && NoSplitPair(chunks)
    ensures LexChunks(rest, chunks) == Lex(rest + Concat(chunks))
    decreases chunks
  {
    if chunks == [] {
      assert rest + Concat(chunks) == rest;
      LexPlain(rest);
    } else {
      var more := Concat(chunks[1..]);
      LexIsPlain(rest + chunks[0]);
      NoSplitPairSameLex(Lex(rest + chunks[0]).rest, chunks[1..]);
      Assoc(rest, chunks[0], more);
      NotSplitPrefixed(rest, chunks[0], more);
      LexConcat(rest + chunks[0], more);
    }
  }

  lemma NotSplitPrefixed(rest: string, a: string, b: string)
    requires Plain(rest) && !SplitPair(a, b)
    ensures !SplitPair(rest + a, b)
  {
    assert rest != "" ==> rest[|rest| - 1] in rest;
  }

  /** Away from CR LF pairs, the chunks do not matter at all: only the text does. */
  lemma ChunkingIsInvisible(chunks: seq<string>, limit: nat)
    requires NoSplitPair(chunks)
    ensures Chunked(NOTHING, "", chunks, limit) == OneShot(Concat(chunks), limit)
  {
    NoSplitPairSameLex("", chunks);
    assert "" + Concat(chunks) == Concat(chunks);
    ChunkedIsVerdict(NOTHING, "", chunks, limit);
  }

  // --------------------------------------------------------------- the parser

  const DEFAULT_SSE_MAX_FRAME_CHARS := 1_048_576

  /** One line that is not blank: nothing for a comment, else its field is stored. */
  method ReadField(line: string, frame0: Frame, data0: seq<string>, sawField0: bool)
    returns (frame: Frame, data: seq<string>, sawField: bool)
    requires line != ""
    ensures forall chars :: Pending(frame, data, sawField, chars) == ReadLine(Pending(frame0, data0, sawField0, chars), line)
  {
    frame, data, sawField := frame0, data0, sawField0;
    if line[0] == ':' { return; }
    var colon := IndexOf(line, ':');
    var field := line[..colon];
    var value := if colon == |line| then "" else line[colon + 1..];
    if value != "" && value[0] == ' ' { value := value[1..]; }
    assert colon == |line| ==> field == line;
    sawField := true;
    if field == "id" {
      if '\0' !in value { frame := frame.(id := Some(value)); }
    } else if field == "event" {
      frame := frame.(event := Some(value));
    } else if field == "data" {
      data := data + [value];
    } else if field == "retry" {
      if AllDigits(value) { frame := frame.(retry := Some(NatOf(value))); }
    }
  }

  /** One complete line: counted, then read or dispatched. */
  method TakeLine(line: string, p0: Pending, limit: nat) returns (frames: seq<Frame>, p: Pending, tooLarge: bool)
    ensures Fed(frames, p, tooLarge) == FeedLine(p0, line, limit)
  {
    var frame, data, sawField := p0.frame, p0.data, p0.sawField;
    var frameChars: nat := p0.chars + |line|;
    if frameChars > limit { return [], Pending(frame, data, sawField, frameChars), true; }
    frames := [];
    if line == "" {
      if sawField {
        frames := [if data == [] then frame else frame.(data := Some(JoinLf(data)))];
      }
      frame, data, sawField, frameChars := NO_FRAME, [], false, 0;
    } else {
      frame, data, sawField := ReadField(line, frame, data, sawField);
    }
    return frames, Pending(frame, data, sawField, frameChars), false;
  }

  lemma FeedFirst(p: Pending, buffer: string, i: nat, limit: nat)
    requires i == Break(buffer) < |buffer|
    ensures var f := FeedLine(p, buffer[..i], limit);
            var left := Lex(buffer[Past(buffer, i)..]);
            && Lex(buffer).rest == left.rest
            && Feed(p, Lex(buffer).lines, limit)
               == if f.tooLarge then f else Prepend(f.frames, Feed(f.pending, left.lines, limit))
  {
    assert Lex(buffer).lines[1..] == Lex(buffer[Past(buffer, i)..]).lines;
  }

  /** Takes every complete line off the buffer; what is left is the unfinished one. */
  method TakeLines(buffer0: string, p0: Pending, limit: nat)
    returns (frames: seq<Frame>, buffer: string, p: Pending, tooLarge: bool)
    ensures Feed(p0, Lex(buffer0).lines, limit) == Fed(frames, p, tooLarge)
    ensures !tooLarge ==> buffer == Lex(buffer0).rest
  {
    frames, buffer, p, tooLarge := [], buffer0, p0, false;
    StartsEmpty(Feed(p0, Lex(buffer0).lines, limit));
    while true
      invariant !tooLarge
      invariant Lex(buffer).rest == Lex(buffer0).rest
      invariant Feed(p0, Lex(buffer0).lines, limit) == Prepend(frames, Feed(p, Lex(buffer).lines, limit))
      decreases |buffer|
    {
      var i := Break(buffer);
      if i == |buffer| { return; }
      FeedFirst(p, buffer, i, limit);
      var line := buffer[..i];
      buffer := buffer[Past(buffer, i)..];
      var more, q, failed := TakeLine(line, p, limit);
      PrependTwice(frames, more, Feed(q, Lex(buffer).lines, limit));
      frames, p, tooLarge := frames + more, q, failed;
      if tooLarge { return; }
    }
  }

  /** The frames of the chunks in order, then the end of the stream or the size failure. */
  method ParseSseStream(chunks: seq<string>, maxFrameChars: Option<int>)
    returns (frames: seq<Frame>, outcome: Outcome)
    ensures var limit := maxFrameChars.GetOr(DEFAULT_SSE_MAX_FRAME_CHARS);
            (frames, outcome) == if GoodLimit(limit) then OneShot(ConcatNormal(chunks), limit) else ([], BadLimit)
  {
    var limit := maxFrameChars.GetOr(DEFAULT_SSE_MAX_FRAME_CHARS);
    frames := [];
    if !GoodLimit(limit) { return frames, BadLimit; }
    var buffer, p := "", NOTHING;
    ChunkedIsOneShot(chunks, limit);
    assert chunks[0..] == chunks;
    assert [] + Chunked(p, buffer, chunks, limit).0 == Chunked(p, buffer, chunks, limit).0;
    var n := 0;
    while n < |chunks|
      invariant n <= |chunks|
      invariant Chunked(NOTHING, "", chunks, limit) == Later(frames, Chunked(p, buffer, chunks[n..], limit))
    {
      assert chunks[n..][1..] == chunks[n + 1..];
      var more, left, q, tooLarge := TakeLines(buffer + chunks[n], p, limit);
      LaterTwice(frames, more, Chunked(q, left, chunks[n + 1..], limit));
      frames := frames + more;
      if tooLarge || q.chars + |left| > limit { return frames, TooLarge; }
      buffer, p := left, q;
      n := n + 1;
    }
    assert frames + [] == frames;
    return frames, Done;
  }

  function Later(frames: seq<Frame>, later: (seq<Frame>, Outcome)): (seq<Frame>, Outcome) {
    (frames + later.0, later.1)
  }

  lemma LaterTwice(a: seq<Frame>, b: seq<Frame>, later: (seq<Frame>, Outcome))
    ensures Later(a, Later(b, later)) == Later(a + b, later)
  {
    assert a + (b + later.0) == (a + b) + later.0;
  }

  lemma StartsEmpty(f: Fed)
    ensures Prepend([], f) == f
  {
  }

  /** Any of the three line breaks ends a line, a CR only if no LF follows it. */
  lemma LexLine(line: string, eol: string, tail: string)
    requires Plain(line) && eol in ["\r\n", "\n", "\r"]
    requires eol == "\r" ==> !SplitPair(eol, tail)
    ensures Lex(line + (eol + tail)) == Lexed([line] + Lex(tail).lines, Lex(tail).rest)
  {
    var text := line + (eol + tail);
    BreakPrefix(line, eol + tail);
    assert Break(eol + tail) == 0;
    assert text[|line|..] == eol + tail;
    assert text[..|line|] == line && text[|line| + |eol|..] == tail;
    assert forall k :: 0 <= k < |eol + tail| ==> text[|line| + k] == (eol + tail)[k];
    LexCut(text, |line|, |line| + |eol|, line, tail);
  }

  lemma NormalLine(line: string, eol: string, tail: string)
    requires Plain(line) && eol in ["\r\n", "\n", "\r"]
    requires eol == "\r" ==> !SplitPair(eol, tail)
    ensures Normal(line + (eol + tail)) == line + ("\n" + Normal(tail))
  {
    LexLine(line, eol, tail);
    var lines := [line] + Lex(tail).lines;
    assert lines[1..] == Lex(tail).lines;
  }

  /** A chunk boundary between the CR and the LF of one line break reads as two: a blank line more. */
  lemma SplitPairAddsBlankLine(line: string, tail: string)
    requires Plain(line)
    ensures Normal(line + ("\r\n" + tail)) == line + ("\n" + Normal(tail))
    ensures Normal(line + "\r") + Normal("\n" + tail) == (line + "\n") + ("\n" + Normal(tail))
  {
    NormalLine(line, "\r\n", tail);
    assert Normal(line + "\r") == line + "\n" by {
      NormalLine(line, "\r", "");
      assert "\r" + "" == "\r" && "\n" + Normal("") == "\n";
    }
    assert Normal("\n" + tail) == "\n" + Normal(tail) by {
      NormalLine("", "\n", tail);
      assert "" + ("\n" + tail) == "\n" + tail;
    }
  }

  lemma LexTwoChunks(a: string, b: string, xs: seq<string>, ys: seq<string>)
    requires Lex(a) == Lexed(xs, "") && Lex(b) == Lexed(ys, "")
    ensures LexChunks("", [a, b]) == Lexed(xs + ys, "")
  {
    assert [a, b][1..] == [b] && [b][1..] == [];
    assert "" + a == a && "" + b == b && ys + [] == ys;
    assert LexChunks("", [b]) == Lexed(ys + LexChunks("", []).lines, "");
  }

  lemma LexEnded(text: string, line: string, eol: string)
    requires Plain(line) && eol in ["\r\n", "\n", "\r"] && text == line + eol
    ensures Lex(text) == Lexed([line], "")
  {
    LexLine(line, eol, "");
    assert eol + "" == eol && Lex("") == Lexed([], "");
  }

  lemma ReadKeepsChars(p: Pending, line: string)
    requires line != ""
    ensures ReadLine(p, line).chars == p.chars
    ensures line[0] != ':' ==> ReadLine(p, line).sawField
  {
  }

  lemma LineAlone(line: string, limit: nat)
    requires line != "" && line[0] != ':' && |line| <= limit
    ensures Verdict(Feed(NOTHING, [line], limit), "", limit) == ([], Done)
    ensures var v := Verdict(Feed(NOTHING, [line, ""], limit), "", limit);
            |v.0| == 1 && v.1 == Done
  {
    var f := FeedLine(NOTHING, line, limit);
    ReadKeepsChars(NOTHING.(chars := |line|), line);
    assert !f.tooLarge && f.pending.chars == |line| && f.pending.sawField;
    assert [line, ""][1..] == [""] && [line][1..] == [] && [""][1..] == [];
    assert Feed(NOTHING, [line], limit) == Prepend([], Fed([], f.pending, false));
    assert Feed(f.pending, [""], limit) == Prepend(Dispatched(f.pending), Fed([], NOTHING, false));
  }

  lemma OneShotIs(text: string, line: string, limit: nat)
    requires Lex(text) == Lexed([line], "")
    ensures OneShot(text, limit) == Verdict(Feed(NOTHING, [line], limit), "", limit)
  {
  }

  lemma ChunkedIs(chunks: seq<string>, lines: seq<string>, limit: nat)
    requires LexChunks("", chunks) == Lexed(lines, "")
    ensures Chunked(NOTHING, "", chunks, limit) == Verdict(Feed(NOTHING, lines, limit), "", limit)
  {
    ChunkedIsVerdict(NOTHING, "", chunks, limit);
  }

  /**
   So a frame is dispatched early: the frame of any one field line that ends in CR LF, which
   the text in one piece leaves unfinished.
   */
  lemma SplitPairInventsFrame(line: string, limit: nat)
    requires Plain(line) && line != "" && line[0] != ':' && |line| <= limit
    ensures OneShot(line + "\r\n", limit) == ([], Done)
    ensures var v := Chunked(NOTHING, "", [line + "\r", "\n"], limit);
            |v.0| == 1 && v.1 == Done
  {
    LineAlone(line, limit);
    var whole, first, second := line + "\r\n", line + "\r", "\n";
    LexEnded(whole, line, "\r\n");
    OneShotIs(whole, line, limit);
    LexEnded(first, line, "\r");
    LexEnded(second, "", "\n");
    LexTwoChunks(first, second, [line], [""]);
    assert [line] + [""] == [line, ""];
    ChunkedIs([first, second], [line, ""], limit);
  }

  // ------------------------------------------------- when a split pair shows

  /** With no field seen there is nothing but comments to forget. */
  predicate Tidy(p: Pending) {
    !p.sawField ==> p == NOTHING.(chars := p.chars)
  }

  lemma FeedLineKeepsTidy(p: Pending, line: string, limit: nat)
    requires Tidy(p) && p.chars <= limit
    ensures var f := FeedLine(p, line, limit);
            Tidy(f.pending) && (!f.tooLarge ==> f.pending.chars <= limit)
  {
    if line != "" {
      ReadKeepsChars(p.(chars := p.chars + |line|), line);
    }
  }

  lemma {:induction false} FeedKeepsTidy(p: Pending, lines: seq<string>, limit: nat)
    requires Tidy(p) && p.chars <= limit
    ensures var f := Feed(p, lines, limit);
            Tidy(f.pending) && (!f.tooLarge ==> f.pending.chars <= limit)
    decreases lines
  {
    if lines != [] {
      FeedLineKeepsTidy(p, lines[0], limit);
      var f := FeedLine(p, lines[0], limit);
      if !f.tooLarge {
        FeedKeepsTidy(f.pending, lines[1..], limit);
      }
    }
  }

  lemma LexEndedAfter(text: string, eol: string)
    requires eol in ["\r\n", "\n", "\r"] && (eol == "\n" ==> !SplitPair(text, eol))
    ensures Lex(text + eol) == Lexed(Lex(text).lines + [Lex(text).rest], "")
  {
    var rest := Lex(text).rest;
    LexIsPlain(text);
    LexConcat(text, eol);
    LexEnded(rest + eol, rest, eol);
  }

  /** What stands before a CR LF pair, read to its end. */
  function AtPair(p: Pending, rest: string, a: string, limit: nat): Fed {
    Feed(p, Lex(rest + a).lines + [Lex(rest + a).rest], limit)
  }

  lemma UnsplitLines(rest: string, a: string, tail: string)
    requires Plain(rest)
    ensures LexChunks(rest, [a + ("\r\n" + tail)])
            == Lexed(Lex(rest + a).lines + [Lex(rest + a).rest] + Lex(tail).lines, Lex(tail).rest)
  {
    var chunk, head := a + ("\r\n" + tail), (rest + a) + "\r\n";
    assert [chunk][1..] == [] && rest + chunk == head + tail;
    LexEndedAfter(rest + a, "\r\n");
    LexConcat(head, tail);
    assert "" + tail == tail;
    var lines := Lex(rest + chunk).lines;
    assert LexChunks(rest, [chunk]) == Lexed(lines + [], Lex(rest + chunk).rest);
    assert lines + [] == lines;
  }

  lemma SplitLines(rest: string, a: string, tail: string)
    requires Plain(rest)
    ensures LexChunks(rest, [a + "\r", "\n" + tail])
            == Lexed(Lex(rest + a).lines + [Lex(rest + a).rest] + ([""] + Lex(tail).lines), Lex(tail).rest)
  {
    var first, second := a + "\r", "\n" + tail;
    assert [first, second][1..] == [second] && [second][1..] == [];
    assert rest + first == (rest + a) + "\r";
    LexEndedAfter(rest + a, "\r");
    LexLine("", "\n", tail);
    assert "" + ("\n" + tail) == second && "" + second == second;
    var lines := Lex(second).lines;
    assert LexChunks("", [second]) == Lexed(lines + [], Lex(second).rest);
    assert lines + [] == lines;
  }

  lemma Unsplit(p: Pending, rest: string, a: string, tail: string, limit: nat)
    requires Plain(rest) && p.chars + |rest| <= limit && !AtPair(p, rest, a, limit).tooLarge
    ensures Chunked(p, rest, [a + ("\r\n" + tail)], limit)
            == Later(AtPair(p, rest, a, limit).frames,
                     Verdict(Feed(AtPair(p, rest, a, limit).pending, Lex(tail).lines, limit), Lex(tail).rest, limit))
  {
    UnsplitLines(rest, a, tail);
    ChunkedIsVerdict(p, rest, [a + ("\r\n" + tail)], limit);
    FeedConcat(p, Lex(rest + a).lines + [Lex(rest + a).rest], Lex(tail).lines, limit);
  }

  lemma Split(p: Pending, rest: string, a: string, tail: string, limit: nat)
    requires Plain(rest) && p.chars + |rest| <= limit && !AtPair(p, rest, a, limit).tooLarge
    requires AtPair(p, rest, a, limit).pending.chars <= limit
    ensures Chunked(p, rest, [a + "\r", "\n" + tail], limit)
            == Later(AtPair(p, rest, a, limit).frames,
                     Later(Dispatched(AtPair(p, rest, a, limit).pending),
                           Verdict(Feed(NOTHING, Lex(tail).lines, limit), Lex(tail).rest, limit)))
  {
    var f := AtPair(p, rest, a, limit);
    SplitLines(rest, a, tail);
    ChunkedIsVerdict(p, rest, [a + "\r", "\n" + tail], limit);
    FeedConcat(p, Lex(rest + a).lines + [Lex(rest + a).rest], [""] + Lex(tail).lines, limit);
    BlankThen(f.pending, Lex(tail).lines, limit);
  }

  lemma BlankThen(p: Pending, lines: seq<string>, limit: nat)
    requires p.chars <= limit
    ensures Feed(p, [""] + lines, limit) == Prepend(Dispatched(p), Feed(NOTHING, lines, limit))
  {
    assert ([""] + lines)[1..] == lines;
    assert Dispatched(p.(chars := p.chars + 0)) == Dispatched(p);
  }

  /** The text that tells: none at all if a frame was dispatched, else a line that fits the limit
      only if the comments before it are forgotten. */
  function TellTale(p: Pending, limit: nat): string {
    if p.sawField || p.chars > limit then "" else seq(limit - p.chars + 1, _ => ':')
  }

  lemma TellTaleTells(p: Pending, limit: nat)
    requires Tidy(p) && p.chars <= limit && p != NOTHING
    ensures var tail := TellTale(p, limit);
            Verdict(Feed(p, Lex(tail).lines, limit), Lex(tail).rest, limit)
            != Later(Dispatched(p), Verdict(Feed(NOTHING, Lex(tail).lines, limit), Lex(tail).rest, limit))
  {
    var tail := TellTale(p, limit);
    assert Plain(tail);
    LexPlain(tail);
  }

  /** The text after the pair is read alike, whether the pair is split over two chunks or not. */
  predicate ReadAlike(p: Pending, rest: string, a: string, tail: string, limit: nat) {
    Chunked(p, rest, [a + ("\r\n" + tail)], limit) == Chunked(p, rest, [a + "\r", "\n" + tail], limit)
  }

  lemma LaterCancels(a: seq<Frame>, x: (seq<Frame>, Outcome), y: (seq<Frame>, Outcome))
    ensures Later(a, x) == Later(a, y) <==> x == y
  {
    if Later(a, x) == Later(a, y) {
      assert x.0 == (a + x.0)[|a|..] && y.0 == (a + y.0)[|a|..];
    }
  }

  lemma ReadAlikeIff(p: Pending, rest: string, a: string, tail: string, limit: nat)
    requires Plain(rest) && Tidy(p) && p.chars + |rest| <= limit && !AtPair(p, rest, a, limit).tooLarge
    ensures var q := AtPair(p, rest, a, limit).pending;
            ReadAlike(p, rest, a, tail, limit)
            <==> Verdict(Feed(q, Lex(tail).lines, limit), Lex(tail).rest, limit)
                 == Later(Dispatched(q), Verdict(Feed(NOTHING, Lex(tail).lines, limit), Lex(tail).rest, limit))
  {
    var f := AtPair(p, rest, a, limit);
    FeedKeepsTidy(p, Lex(rest + a).lines + [Lex(rest + a).rest], limit);
    Unsplit(p, rest, a, tail, limit);
    Split(p, rest, a, tail, limit);
    LaterCancels(f.frames, Verdict(Feed(f.pending, Lex(tail).lines, limit), Lex(tail).rest, limit),
                 Later(Dispatched(f.pending), Verdict(Feed(NOTHING, Lex(tail).lines, limit), Lex(tail).rest, limit)));
  }

  /**
   When splitting a CR LF pair over two chunks shows. From any state of the parser, whatever stands
   before the pair: some text that follows is read differently exactly when something is pending at
   the end of the pair's line, a field or as much as a comment.
   */
  lemma SplitPairShowsIff(p: Pending, rest: string, a: string, limit: nat)
    requires Plain(rest) && Tidy(p) && p.chars + |rest| <= limit && !AtPair(p, rest, a, limit).tooLarge
    ensures (exists tail :: !ReadAlike(p, rest, a, tail, limit)) <==> AtPair(p, rest, a, limit).pending != NOTHING
  {
    var q := AtPair(p, rest, a, limit).pending;
    FeedKeepsTidy(p, Lex(rest + a).lines + [Lex(rest + a).rest], limit);
    if q != NOTHING {
      TellTaleTells(q, limit);
      ReadAlikeIff(p, rest, a, TellTale(q, limit), limit);
    } else {
      forall tail ensures ReadAlike(p, rest, a, tail, limit) {
        ReadAlikeIff(p, rest, a, tail, limit);
        var v := Verdict(Feed(NOTHING, Lex(tail).lines, limit), Lex(tail).rest, limit);
        assert [] + v.0 == v.0;
      }
    }
  }
}
