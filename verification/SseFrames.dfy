/**
 Frames written out in the event-stream format (WHATWG HTML Living Standard, section 9.2.5)
 and read back by the parser.
 */
module SseFrames {
  import opened Wrappers
  import opened SseParser

  // ------------------------------------------------------------------ writing

  function DigitChar(d: nat): (c: char)
    requires d < 10
    ensures Digit(c) && DigitValue(c) == d
  {
    ('0' as int + d) as char
  }

  function Decimal(n: nat): (s: string)
    ensures AllDigits(s)
  {
    if n < 10 then [DigitChar(n)] else Decimal(n / 10) + [DigitChar(n % 10)]
  }

  /** The text cut at every LF. */
  function SplitLf(text: string): (parts: seq<string>)
    ensures parts != []
    decreases |text|
  {
    var i := IndexOf(text, '\n');
    if i == |text| then [text] else [text[..i]] + SplitLf(text[i + 1..])
  }

  function FieldLine(name: string, value: string): string {
    name + (": " + value)
  }

  function OptLine(name: string, value: Option<string>): seq<string> {
    match value
    case None => []
    case Some(v) => [FieldLine(name, v)]
  }

  function DataLines(parts: seq<string>): seq<string> {
    if parts == [] then [] else [FieldLine("data", parts[0])] + DataLines(parts[1..])
  }

  function DataParts(data: Option<string>): seq<string> {
    match data
    case None => []
    case Some(d) => SplitLf(d)
  }

  function RetryText(retry: Option<nat>): Option<string> {
    match retry
    case None => None
    case Some(n) => Some(Decimal(n))
  }

  function HeadLines(f: Frame): seq<string> {
    OptLine("id", f.id) + OptLine("event", f.event)
  }

  function BodyLines(f: Frame): seq<string> {
    DataLines(DataParts(f.data)) + OptLine("retry", RetryText(f.retry))
  }

  /** The lines of one frame, the blank one included. */
  function FrameLines(f: Frame): seq<string> {
    (HeadLines(f) + BodyLines(f)) + [""]
  }

  /** What a writer puts between blank lines: a frame, or a comment that only keeps the pipe alive. */
  datatype Block = Told(frame: Frame) | Comment(text: string)

  function BlockLines(b: Block): seq<string> {
    match b
    case Told(f) => FrameLines(f)
    case Comment(text) => [":" + text, ""]
  }

  function AllLines(blocks: seq<Block>): seq<string> {
    if blocks == [] then [] else BlockLines(blocks[0]) + AllLines(blocks[1..])
  }

  function FramesOf(b: Block): seq<Frame> {
    match b
    case Told(f) => [f]
    case Comment(_) => []
  }

  function FramesIn(blocks: seq<Block>): seq<Frame> {
    if blocks == [] then [] else FramesOf(blocks[0]) + FramesIn(blocks[1..])
  }

  function Size(lines: seq<string>): nat {
    if lines == [] then 0 else |lines[0]| + Size(lines[1..])
  }

  /** What the format can carry: some field, no line break inside a value but LF in the data. */
  predicate Printable(f: Frame, limit: nat) {
    && f != NO_FRAME
    && (f.id.Some? ==> Plain(f.id.value) && '\0' !in f.id.value)
    && (f.event.Some? ==> Plain(f.event.value))
    && (f.data.Some? ==> '\r' !in f.data.value)
    && Size(FrameLines(f)) <= limit
  }

  predicate Writable(b: Block, limit: nat) {
    match b
    case Told(f) => Printable(f, limit)
    case Comment(text) => Plain(text) && 1 + |text| <= limit
  }

  // ----------------------------------------------------------- values round trip

  lemma {:induction false} DecimalReadsBack(n: nat)
    ensures NatOf(Decimal(n)) == n
  {
    if n >= 10 {
      DecimalReadsBack(n / 10);
      var s := Decimal(n);
      assert s[..|s| - 1] == Decimal(n / 10);
    }
  }

  lemma {:induction false} JoinSplit(text: string)
    ensures JoinLf(SplitLf(text)) == text
    decreases |text|
  {
    var i := IndexOf(text, '\n');
    if i < |text| {
      var parts := SplitLf(text);
      JoinSplit(text[i + 1..]);
      assert parts[1..] == SplitLf(text[i + 1..]);
      assert text == text[..i] + "\n" + text[i + 1..];
    }
  }

  lemma {:induction false} SplitIsPlain(text: string)
    requires '\r' !in text
    ensures forall part :: part in SplitLf(text) ==> Plain(part)
    decreases |text|
  {
    var i := IndexOf(text, '\n');
    if i < |text| {
      SplitIsPlain(text[i + 1..]);
    }
  }

  lemma {:induction false} IndexAfter(name: string, c: char, tail: string)
    requires c !in name
    ensures IndexOf(name + ([c] + tail), c) == |name|
  {
    if name != "" {
      assert (name + ([c] + tail))[1..] == name[1..] + ([c] + tail);
      IndexAfter(name[1..], c, tail);
    } else {
      assert name + ([c] + tail) == [c] + tail;
    }
  }

  /** A written field reads back as that field: exactly the one space is dropped. */
  lemma FieldReadsBack(p: Pending, name: string, value: string)
    requires name != "" && ':' !in name
    ensures FieldLine(name, value) != ""
    ensures ReadLine(p, FieldLine(name, value)) == Field(p, name, value)
  {
    var line := FieldLine(name, value);
    assert line[0] == name[0];
    assert ": " + value == [':'] + (" " + value);
    IndexAfter(name, ':', " " + value);
    assert line[..|name|] == name;
    assert line[|name| + 1..] == " " + value;
    assert (" " + value)[1..] == value;
  }

  // ------------------------------------------------------------ reading the lines

  /** Feeding `lines` dispatches nothing and moves what is pending from `p` to `q`. */
  predicate FeedsTo(p: Pending, lines: seq<string>, q: Pending, limit: nat) {
    Feed(p, lines, limit) == Fed([], q, false)
  }

  lemma Chain(p: Pending, xs: seq<string>, q: Pending, ys: seq<string>, r: Pending, limit: nat)
    requires FeedsTo(p, xs, q, limit) && FeedsTo(q, ys, r, limit)
    ensures FeedsTo(p, xs + ys, r, limit)
  {
    FeedConcat(p, xs, ys, limit);
  }

  lemma {:induction false} SizeConcat(xs: seq<string>, ys: seq<string>)
    ensures Size(xs + ys) == Size(xs) + Size(ys)
  {
    if xs == [] {
      assert xs + ys == ys;
    } else {
      assert (xs + ys)[1..] == xs[1..] + ys;
      SizeConcat(xs[1..], ys);
    }
  }

  function Charged(p: Pending, lines: seq<string>): Pending {
    p.(chars := p.chars + Size(lines))
  }

  lemma FeedOne(p: Pending, line: string, q: Pending, limit: nat)
    requires line != "" && p.chars + |line| <= limit
    requires q == ReadLine(p.(chars := p.chars + |line|), line)
    ensures FeedsTo(p, [line], q, limit)
  {
    assert [line][1..] == [];
    assert Feed(p, [line], limit) == Prepend([], Feed(q, [], limit));
  }

  lemma SizeOfOne(line: string)
    ensures Size([line]) == |line|
  {
    assert [line][1..] == [];
  }

  lemma FeedField(p: Pending, name: string, value: string, limit: nat)
    requires name != "" && ':' !in name
    requires p.chars + Size([FieldLine(name, value)]) <= limit
    ensures FeedsTo(p, [FieldLine(name, value)], Field(Charged(p, [FieldLine(name, value)]), name, value), limit)
  {
    var line := FieldLine(name, value);
    SizeOfOne(line);
    var charged := p.(chars := p.chars + |line|);
    FieldReadsBack(charged, name, value);
    FeedOne(p, line, ReadLine(charged, line), limit);
  }

  /** `p` with more data lines, `n` characters in all. */
  function DataAdded(p: Pending, parts: seq<string>, n: nat): Pending {
    Pending(p.frame, p.data + parts, p.sawField || parts != [], p.chars + n)
  }

  lemma DataAddedTwice(p: Pending, xs: seq<string>, m: nat, ys: seq<string>, n: nat)
    ensures DataAdded(DataAdded(p, xs, m), ys, n) == DataAdded(p, xs + ys, m + n)
  {
    assert (p.data + xs) + ys == p.data + (xs + ys);
  }

  lemma FeedDataLine(p: Pending, part: string, limit: nat)
    requires p.chars + Size([FieldLine("data", part)]) <= limit
    ensures FeedsTo(p, [FieldLine("data", part)], DataAdded(p, [part], Size([FieldLine("data", part)])), limit)
  {
    FeedField(p, "data", part, limit);
  }

  lemma {:induction false} FeedData(p: Pending, parts: seq<string>, limit: nat)
    requires p.chars + Size(DataLines(parts)) <= limit
    ensures FeedsTo(p, DataLines(parts), DataAdded(p, parts, Size(DataLines(parts))), limit)
    decreases |parts|
  {
    if parts == [] {
      assert p.data + parts == p.data;
    } else {
      var line, more := [FieldLine("data", parts[0])], DataLines(parts[1..]);
      SizeConcat(line, more);
      FeedDataLine(p, parts[0], limit);
      var q := DataAdded(p, [parts[0]], Size(line));
      FeedData(q, parts[1..], limit);
      Chain(p, line, q, more, DataAdded(q, parts[1..], Size(more)), limit);
      DataAddedTwice(p, [parts[0]], Size(line), parts[1..], Size(more));
      assert [parts[0]] + parts[1..] == parts;
    }
  }

  /** What is pending after the lines of an optional field. */
  function AfterOpt(p: Pending, name: string, value: Option<string>): Pending {
    match value
    case None => p
    case Some(v) => Field(Charged(p, OptLine(name, value)), name, v)
  }

  lemma FeedOpt(p: Pending, name: string, value: Option<string>, limit: nat)
    requires name != "" && ':' !in name
    requires p.chars + Size(OptLine(name, value)) <= limit
    ensures FeedsTo(p, OptLine(name, value), AfterOpt(p, name, value), limit)
  {
    if value.Some? {
      FeedField(p, name, value.value, limit);
    }
  }

  lemma FeedHead(f: Frame, limit: nat)
    requires Printable(f, limit) && Size(HeadLines(f)) <= limit
    ensures FeedsTo(NOTHING, HeadLines(f),
                    Pending(NO_FRAME.(id := f.id, event := f.event), [], f.id.Some? || f.event.Some?, Size(HeadLines(f))), limit)
  {
    var ids, events := OptLine("id", f.id), OptLine("event", f.event);
    SizeConcat(ids, events);
    FeedOpt(NOTHING, "id", f.id, limit);
    var p := AfterOpt(NOTHING, "id", f.id);
    FeedOpt(p, "event", f.event, limit);
    Chain(NOTHING, ids, p, events, AfterOpt(p, "event", f.event), limit);
  }

  lemma FeedRetry(p: Pending, retry: Option<nat>, limit: nat)
    requires p.frame.retry == None && p.chars + Size(OptLine("retry", RetryText(retry))) <= limit
    ensures FeedsTo(p, OptLine("retry", RetryText(retry)),
                    Pending(p.frame.(retry := retry), p.data, p.sawField || retry.Some?,
                            p.chars + Size(OptLine("retry", RetryText(retry)))), limit)
  {
    FeedOpt(p, "retry", RetryText(retry), limit);
    if retry.Some? {
      DecimalReadsBack(retry.value);
    }
  }

  lemma FeedBody(f: Frame, p: Pending, limit: nat)
    requires p.frame.retry == None && p.data == [] && p.chars + Size(BodyLines(f)) <= limit
    ensures FeedsTo(p, BodyLines(f),
                    Pending(p.frame.(retry := f.retry), DataParts(f.data),
                            p.sawField || f.data.Some? || f.retry.Some?, p.chars + Size(BodyLines(f))), limit)
  {
    var parts := DataParts(f.data);
    var datas, retries := DataLines(parts), OptLine("retry", RetryText(f.retry));
    SizeConcat(datas, retries);
    FeedData(p, parts, limit);
    assert p.data + parts == parts;
    var q := DataAdded(p, parts, Size(datas));
    FeedRetry(q, f.retry, limit);
    Chain(p, datas, q, retries,
          Pending(q.frame.(retry := f.retry), q.data, q.sawField || f.retry.Some?, q.chars + Size(retries)), limit);
  }

  /** The lines of a frame read back as that frame, and leave nothing pending. */
  lemma FrameReadsBack(f: Frame, limit: nat)
    requires Printable(f, limit)
    ensures Feed(NOTHING, FrameLines(f), limit) == Fed([f], NOTHING, false)
  {
    var head, body := HeadLines(f), BodyLines(f);
    SizeConcat(head + body, [""]);
    SizeConcat(head, body);
    FeedHead(f, limit);
    var p := Pending(NO_FRAME.(id := f.id, event := f.event), [], f.id.Some? || f.event.Some?, Size(head));
    FeedBody(f, p, limit);
    var q := Pending(NO_FRAME.(id := f.id, event := f.event, retry := f.retry), DataParts(f.data), true, Size(head) + Size(body));
    Chain(NOTHING, head, p, body, q, limit);
    FeedConcat(NOTHING, head + body, [""], limit);
    DispatchesWhole(f, q, limit);
    StartsEmpty(Feed(q, [""], limit));
  }

  lemma DispatchesWhole(f: Frame, q: Pending, limit: nat)
    requires q.frame == f.(data := None) && q.data == DataParts(f.data) && q.sawField && q.chars <= limit
    ensures Feed(q, [""], limit) == Fed([f], NOTHING, false)
  {
    if f.data.Some? {
      JoinSplit(f.data.value);
    }
    assert Dispatched(q) == [f];
    assert [""][1..] == [];
    assert Feed(q, [""], limit) == Prepend([f], Fed([], NOTHING, false));
  }

  lemma LinesAssoc(a: seq<string>, b: seq<string>, c: seq<string>)
    ensures (a + b) + c == a + (b + c)
  {
  }

  /** A comment dispatches nothing, and leaves nothing pending. */
  lemma CommentReadsBack(text: string, limit: nat)
    requires 1 + |text| <= limit
    ensures Feed(NOTHING, BlockLines(Comment(text)), limit) == Fed([], NOTHING, false)
  {
    var line := ":" + text;
    var p := NOTHING.(chars := |line|);
    FeedOne(NOTHING, line, p, limit);
    FeedConcat(NOTHING, [line], [""], limit);
    assert [line] + [""] == BlockLines(Comment(text));
    assert [""][1..] == [];
    assert Feed(p, [""], limit) == Prepend([], Fed([], NOTHING, false));
  }

  lemma BlockReadsBack(b: Block, limit: nat)
    requires Writable(b, limit)
    ensures Feed(NOTHING, BlockLines(b), limit) == Fed(FramesOf(b), NOTHING, false)
  {
    match b {
      case Told(f) => FrameReadsBack(f, limit);
      case Comment(text) => CommentReadsBack(text, limit);
    }
  }

  lemma {:induction false} BlocksReadBack(blocks: seq<Block>, tail: seq<string>, limit: nat)
    requires forall b :: b in blocks ==> Writable(b, limit)
    ensures Feed(NOTHING, AllLines(blocks) + tail, limit) == Prepend(FramesIn(blocks), Feed(NOTHING, tail, limit))
  {
    if blocks == [] {
      assert AllLines(blocks) + tail == tail;
      StartsEmpty(Feed(NOTHING, tail, limit));
    } else {
      var first, more := BlockLines(blocks[0]), AllLines(blocks[1..]);
      assert blocks[0] in blocks;
      BlockReadsBack(blocks[0], limit);
      BlocksReadBack(blocks[1..], tail, limit);
      LinesAssoc(first, more, tail);
      FeedConcat(NOTHING, first, more + tail, limit);
      PrependTwice(FramesOf(blocks[0]), FramesIn(blocks[1..]), Feed(NOTHING, tail, limit));
    }
  }

  lemma {:induction false} NoBlankNoFrame(p: Pending, lines: seq<string>, limit: nat)
    requires "" !in lines
    ensures Feed(p, lines, limit).frames == []
    decreases lines
  {
    if lines != [] {
      var f := FeedLine(p, lines[0], limit);
      if !f.tooLarge {
        NoBlankNoFrame(f.pending, lines[1..], limit);
      }
    }
  }

  // -------------------------------------------------------------- whole documents

  lemma PlainConcat(a: string, b: string)
    requires Plain(a) && Plain(b)
    ensures Plain(a + b)
  {
  }

  lemma PlainField(name: string, value: string)
    requires Plain(name) && Plain(value)
    ensures Plain(FieldLine(name, value))
  {
    PlainConcat(": ", value);
    PlainConcat(name, ": " + value);
  }

  predicate AllPlain(lines: seq<string>) {
    forall l :: l in lines ==> Plain(l)
  }

  lemma {:induction false} DataPlain(parts: seq<string>)
    requires AllPlain(parts)
    ensures AllPlain(DataLines(parts))
  {
    if parts != [] {
      PlainField("data", parts[0]);
      DataPlain(parts[1..]);
    }
  }

  lemma FramePlain(f: Frame, limit: nat)
    requires Printable(f, limit)
    ensures AllPlain(FrameLines(f))
  {
    if f.id.Some? { PlainField("id", f.id.value); }
    if f.event.Some? { PlainField("event", f.event.value); }
    if f.data.Some? { SplitIsPlain(f.data.value); }
    DataPlain(DataParts(f.data));
    if f.retry.Some? { DigitsPlain(Decimal(f.retry.value)); PlainField("retry", Decimal(f.retry.value)); }
  }

  lemma DigitsPlain(s: string)
    requires AllDigits(s)
    ensures Plain(s)
  {
  }

  lemma BlockPlain(b: Block, limit: nat)
    requires Writable(b, limit)
    ensures AllPlain(BlockLines(b))
  {
    match b {
      case Told(f) => FramePlain(f, limit);
      case Comment(text) =>
    }
  }

  lemma {:induction false} BlocksPlain(blocks: seq<Block>, limit: nat)
    requires forall b :: b in blocks ==> Writable(b, limit)
    ensures AllPlain(AllLines(blocks))
  {
    if blocks != [] {
      assert blocks[0] in blocks;
      BlockPlain(blocks[0], limit);
      BlocksPlain(blocks[1..], limit);
    }
  }

  /** The blocks written out, then some complete lines and an unfinished one of a frame cut off. */
  function Document(blocks: seq<Block>, cut: seq<string>, rest: string): string {
    Unlex(AllLines(blocks) + cut, rest)
  }

  lemma {:induction false} UnlexHasNoCr(lines: seq<string>, rest: string)
    requires AllPlain(lines) && Plain(rest)
    ensures '\r' !in Unlex(lines, rest)
  {
    if lines != [] {
      UnlexHasNoCr(lines[1..], rest);
      assert Plain(lines[0]);
    }
  }

  lemma {:induction false} NoCrNoSplitPair(chunks: seq<string>)
    requires '\r' !in Concat(chunks)
    ensures NoSplitPair(chunks)
  {
    if chunks != [] {
      assert forall k :: 0 <= k < |chunks[0]| ==> Concat(chunks)[k] == chunks[0][k];
      assert chunks[0] != "" ==> chunks[0][|chunks[0]| - 1] in Concat(chunks);
      assert forall k :: 0 <= k < |Concat(chunks[1..])| ==> Concat(chunks[1..])[k] == Concat(chunks)[|chunks[0]| + k];
      NoCrNoSplitPair(chunks[1..]);
    }
  }

  lemma DocumentLexed(blocks: seq<Block>, cut: seq<string>, rest: string, limit: nat)
    requires forall b :: b in blocks ==> Writable(b, limit)
    requires AllPlain(cut) && Plain(rest)
    ensures Lex(Document(blocks, cut, rest)) == Lexed(AllLines(blocks) + cut, rest)
    ensures '\r' !in Document(blocks, cut, rest)
  {
    BlocksPlain(blocks, limit);
    var lines := AllLines(blocks) + cut;
    assert AllPlain(lines);
    UnlexHasNoCr(lines, rest);
    LexUnlex(lines, rest, "");
    LexPlain(rest);
    assert rest + "" == rest && Unlex(lines, rest) + "" == Unlex(lines, rest) && lines + [] == lines;
  }

  /**
   However a document is chunked on its way, the parser yields exactly the frames that were
   written, whatever their data and leading spaces and whatever comments stand between them, and
   nothing for the frame cut off at the end.
   */
  lemma WrittenFramesReadBack(blocks: seq<Block>, cut: seq<string>, rest: string, chunks: seq<string>, limit: nat)
    requires forall b :: b in blocks ==> Writable(b, limit)
    requires AllPlain(cut) && "" !in cut && Plain(rest)
    requires Concat(chunks) == Document(blocks, cut, rest)
    ensures Chunked(NOTHING, "", chunks, limit).0 == FramesIn(blocks)
    ensures cut == [] && |rest| <= limit ==> Chunked(NOTHING, "", chunks, limit).1 == Done
  {
    DocumentLexed(blocks, cut, rest, limit);
    NoCrNoSplitPair(chunks);
    ChunkingIsInvisible(chunks, limit);
    BlocksReadBack(blocks, cut, limit);
    NoBlankNoFrame(NOTHING, cut, limit);
    assert FramesIn(blocks) + [] == FramesIn(blocks);
  }
}
