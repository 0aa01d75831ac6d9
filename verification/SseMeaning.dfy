/**
 What a text in the event-stream format means, block by block, told without the parser (WHATWG HTML Living
 Standard, section 9.2.6): for each field, which line of the block decides it.
 */
module SseMeaning {
  import opened Wrappers
  import opened SseParser
  import opened SseFrames

  // ---------------------------------------------------------------------------- one line

  predicate Comments(line: string) {
    line != "" && line[0] == ':'
  }

  /** The line gives this value to the field of this name: after its first colon and one space, if there is
      one; nothing, if it has no colon. */
  predicate Says(line: string, name: string, value: string) {
    && line != "" && line[0] != ':' && ':' !in name
    && (line == name + ":" + value || line == name + ": " + value || (line == name && value == ""))
    && (value != "" && value[0] == ' ' ==> line == name + ": " + value)
  }

  function NameOf(line: string): string {
    line[..IndexOf(line, ':')]
  }

  function ValueOf(line: string): string {
    var i := IndexOf(line, ':');
    if i == |line| then "" else OneSpaceOff(line[i + 1..])
  }

  lemma NamePrefix(line: string, name: string, rest: string)
    requires line == name + ":" + rest && ':' !in name
    ensures IndexOf(line, ':') == |name| && line[..|name|] == name && line[|name| + 1..] == rest
  {
    assert line[|name|] == ':';
    assert forall k :: 0 <= k < |name| ==> line[k] == name[k] && name[k] in name;
  }

  lemma SaysOnly(line: string, name: string, value: string)
    requires Says(line, name, value)
    ensures name == NameOf(line) && value == ValueOf(line)
  {
    if line == name && value == "" && ':' !in line {
      assert IndexOf(line, ':') == |line|;
    } else if line == name + ": " + value {
      assert line == name + ":" + (" " + value);
      NamePrefix(line, name, " " + value);
    } else {
      NamePrefix(line, name, value);
    }
  }

  lemma SaysIs(line: string)
    requires line != "" && line[0] != ':'
    ensures Says(line, NameOf(line), ValueOf(line))
  {
    var i := IndexOf(line, ':');
    if i == |line| {
      assert NameOf(line) == line;
    } else {
      var rest := line[i + 1..];
      assert line == NameOf(line) + ":" + rest;
      if rest != "" && rest[0] == ' ' {
        assert rest == " " + rest[1..];
        assert line == NameOf(line) + ": " + rest[1..];
      }
    }
  }

  /** A line that is no comment says exactly one thing, and a comment says nothing. */
  lemma OneSaying(line: string)
    requires line != ""
    ensures Comments(line) <==> forall name, value :: !Says(line, name, value)
    ensures !Comments(line) ==> Says(line, NameOf(line), ValueOf(line))
    ensures forall name, value :: Says(line, name, value) ==> name == NameOf(line) && value == ValueOf(line)
  {
    if line[0] != ':' {
      SaysIs(line);
    }
    forall name, value | Says(line, name, value) ensures name == NameOf(line) && value == ValueOf(line) {
      SaysOnly(line, name, value);
    }
  }

  // --------------------------------------------------------------------------- one block

  /** An id must not hold a NUL, and a retry must be a number; other values of these are passed over. */
  predicate Counts(name: string, value: string) {
    if name == "id" then '\0' !in value
    else if name == "retry" then value != "" && forall i :: 0 <= i < |value| ==> '0' <= value[i] <= '9'
    else true
  }

  predicate Sets(line: string, name: string, value: string) {
    Says(line, name, value) && Counts(name, value)
  }

  /** No line from the k-th on sets the field. */
  ghost predicate Unset(block: seq<string>, name: string, k: nat) {
    forall j, value :: k <= j < |block| ==> !Sets(block[j], name, value)
  }

  /** The last line that sets the field gives it this value. */
  ghost predicate LastSets(block: seq<string>, name: string, value: string) {
    exists k :: 0 <= k < |block| && Sets(block[k], name, value) && Unset(block, name, k + 1)
  }

  ghost predicate Decides(block: seq<string>, name: string, field: Option<string>) {
    match field
    case None => Unset(block, name, 0)
    case Some(value) => LastSets(block, name, value)
  }

  ghost predicate DecidesNumber(block: seq<string>, field: Option<nat>) {
    match field
    case None => Unset(block, "retry", 0)
    case Some(n) => exists value :: LastSets(block, "retry", value) && Counts("retry", value) && NatOf(value) == n
  }

  /** The values of the data lines, in their order. */
  ghost predicate Gathers(block: seq<string>, values: seq<string>) {
    if block == [] then values == []
    else
      var front, line := block[..|block| - 1], block[|block| - 1];
      if exists value :: Says(line, "data", value) then
        values != [] && Says(line, "data", values[|values| - 1]) && Gathers(front, values[..|values| - 1])
      else Gathers(front, values)
  }

  /** With one LF between each two of them. */
  function Lined(values: seq<string>): string
    requires values != []
  {
    if |values| == 1 then values[0] else Lined(values[..|values| - 1]) + "\n" + values[|values| - 1]
  }

  ghost predicate DecidesData(block: seq<string>, data: Option<string>) {
    exists values :: Gathers(block, values)
                     && data == if values == [] then None else Some(Lined(values))
  }

  ghost predicate Means(block: seq<string>, f: Frame) {
    && Decides(block, "id", f.id) && Decides(block, "event", f.event)
    && DecidesNumber(block, f.retry) && DecidesData(block, f.data)
  }

  /** Something is said in the block, be it a field that nobody knows. */
  ghost predicate Speaks(block: seq<string>) {
    exists k :: 0 <= k < |block| && !Comments(block[k])
  }

  predicate NoBlank(block: seq<string>) {
    forall k :: 0 <= k < |block| ==> block[k] != ""
  }

  // -------------------------------------------------------------------- reading a block

  /** One line more. */
  function ReadNext(p: Pending, line: string): Pending {
    if line == "" then p else ReadLine(p.(chars := p.chars + |line|), line)
  }

  type Reader = (Pending, string) -> Pending

  /** Line by line, from the first. */
  function ReadAll(read: Reader, block: seq<string>): Pending {
    if block == [] then NOTHING else read(ReadAll(read, block[..|block| - 1]), block[|block| - 1])
  }

  /** What is claimed of a block, of what has been read of it, and of the lines after it. */
  type Claim = (seq<string>, Pending, seq<string>) -> bool

  /** If it holds of the lines before, with this one still to come, it holds with this one. */
  ghost predicate Grows(read: Reader, claim: Claim, front: seq<string>, p: Pending, line: string, more: seq<string>) {
    line != "" && claim(front, p, [line] + more) ==> claim(front + [line], read(p, line), more)
  }

  lemma {:induction false} LineByLine(read: Reader, claim: Claim, block: seq<string>, more: seq<string>)
    requires forall m :: claim([], NOTHING, m)
    requires forall f, p, l, m :: Grows(read, claim, f, p, l, m)
    requires NoBlank(block)
    ensures claim(block, ReadAll(read, block), more)
    decreases |block|
  {
    if block != [] {
      var front, line := block[..|block| - 1], block[|block| - 1];
      LineByLine(read, claim, front, [line] + more);
      assert Grows(read, claim, front, ReadAll(read, front), line, more);
      assert front + [line] == block;
    }
  }

  lemma ReadLineIs(p: Pending, line: string)
    requires line != ""
    ensures ReadLine(p, line) == if Comments(line) then p else Field(p, NameOf(line), ValueOf(line))
  {
    if IndexOf(line, ':') == |line| {
      assert line[..|line|] == line;
    }
  }

  lemma CountsIs(value: string)
    ensures Counts("retry", value) <==> AllDigits(value)
  {
    if Counts("retry", value) {
      forall c | c in value ensures Digit(c) {
        var i :| 0 <= i < |value| && value[i] == c;
      }
    } else if value != "" {
      var i :| 0 <= i < |value| && !('0' <= value[i] <= '9');
      assert value[i] in value && !Digit(value[i]);
    }
  }

  lemma DecidesNext(front: seq<string>, line: string, name: string, was: Option<string>, now: Option<string>)
    requires line != "" && Decides(front, name, was)
    requires now == if !Comments(line) && NameOf(line) == name && Counts(name, ValueOf(line)) then Some(ValueOf(line)) else was
    ensures Decides(front + [line], name, now)
  {
    var block, n := front + [line], |front|;
    OneSaying(line);
    assert block[n] == line;
    if !Comments(line) && NameOf(line) == name && Counts(name, ValueOf(line)) {
      assert Sets(block[n], name, ValueOf(line)) && Unset(block, name, n + 1);
    } else {
      StillDecides(front, line, name, was);
    }
  }

  lemma StillDecides(front: seq<string>, line: string, name: string, was: Option<string>)
    requires Decides(front, name, was) && forall value :: !Sets(line, name, value)
    ensures Decides(front + [line], name, was)
  {
    var block := front + [line];
    assert forall j :: 0 <= j < |front| ==> block[j] == front[j];
    if was.Some? {
      var k :| 0 <= k < |front| && Sets(front[k], name, was.value) && Unset(front, name, k + 1);
      assert Sets(block[k], name, was.value) && Unset(block, name, k + 1);
    }
  }

  /** The text of the number that is decided so far. */
  ghost predicate RetryIs(block: seq<string>, retry: Option<nat>, text: Option<string>) {
    Decides(block, "retry", text)
    && match text
       case None => retry == None
       case Some(value) => AllDigits(value) && retry == Some(NatOf(value))
  }

  lemma GathersNext(front: seq<string>, line: string, was: seq<string>, now: seq<string>)
    requires line != "" && Gathers(front, was)
    requires now == if !Comments(line) && NameOf(line) == "data" then was + [ValueOf(line)] else was
    ensures Gathers(front + [line], now)
  {
    var block := front + [line];
    OneSaying(line);
    assert block[..|block| - 1] == front && block[|block| - 1] == line;
    if !Comments(line) && NameOf(line) == "data" {
      assert Says(line, "data", ValueOf(line));
      assert now[..|now| - 1] == was && now[|now| - 1] == ValueOf(line);
    }
  }

  /** What has been read of a block so far. */
  ghost predicate ReadSo(block: seq<string>, p: Pending, text: Option<string>) {
    && Decides(block, "id", p.frame.id) && Decides(block, "event", p.frame.event) && RetryIs(block, p.frame.retry, text)
    && Gathers(block, p.data) && p.frame.data == None && p.chars == Size(block)
    && (p.sawField <==> Speaks(block))
  }

  lemma SpeaksNext(front: seq<string>, line: string)
    ensures Speaks(front + [line]) <==> Speaks(front) || !Comments(line)
  {
    var block := front + [line];
    assert block[|front|] == line;
    if k :| 0 <= k < |front| && !Comments(front[k]) {
      assert !Comments(block[k]);
    }
    if k :| 0 <= k < |block| && !Comments(block[k]) {
      assert k < |front| ==> block[k] == front[k];
    }
  }

  lemma {:induction false} SizeNext(front: seq<string>, line: string)
    ensures Size(front + [line]) == Size(front) + |line|
  {
    if front == [] {
      assert [] + [line] == [line] && [line][1..] == [];
    } else {
      assert (front + [line])[1..] == front[1..] + [line];
      SizeNext(front[1..], line);
    }
  }

  lemma FieldsNext(front: seq<string>, line: string, p: Pending, text: Option<string>, q: Pending) returns (text': Option<string>)
    requires line != "" && ReadSo(front, p, text)
    requires q == ReadNext(p, line)
    ensures ReadSo(front + [line], q, text')
  {
    ReadLineIs(p.(chars := p.chars + |line|), line);
    CountsIs(ValueOf(line));
    SpeaksNext(front, line);
    SizeNext(front, line);
    text' := if !Comments(line) && NameOf(line) == "retry" && Counts("retry", ValueOf(line)) then Some(ValueOf(line)) else text;
    DecidesNext(front, line, "id", p.frame.id, q.frame.id);
    DecidesNext(front, line, "event", p.frame.event, q.frame.event);
    DecidesNext(front, line, "retry", text, text');
    GathersNext(front, line, p.data, q.data);
  }

  ghost predicate SomehowSo(block: seq<string>, p: Pending) {
    exists text :: ReadSo(block, p, text)
  }

  lemma NothingRead()
    ensures SomehowSo([], NOTHING)
  {
    assert Size([]) == 0;
    assert ReadSo([], NOTHING, None);
  }

  lemma SomehowNext(front: seq<string>, p: Pending, line: string)
    requires line != "" && SomehowSo(front, p)
    ensures SomehowSo(front + [line], ReadNext(p, line))
  {
    var text :| ReadSo(front, p, text);
    var text' := FieldsNext(front, line, p, text, ReadNext(p, line));
  }

  lemma ReadsSo(block: seq<string>)
    requires NoBlank(block)
    ensures SomehowSo(block, ReadAll(ReadNext, block))
  {
    var claim: Claim := (b: seq<string>, p: Pending, _) => SomehowSo(b, p);
    NothingRead();
    forall f, p, l, m ensures Grows(ReadNext, claim, f, p, l, m) {
      if l != "" && SomehowSo(f, p) { SomehowNext(f, p, l); }
    }
    LineByLine(ReadNext, claim, block, []);
  }

  lemma {:induction false} JoinBack(values: seq<string>, last: string)
    requires values != []
    ensures JoinLf(values + [last]) == JoinLf(values) + "\n" + last
  {
    if |values| == 1 {
      assert (values + [last])[1..] == [last];
    } else {
      assert (values + [last])[1..] == values[1..] + [last];
      JoinBack(values[1..], last);
      assert values[0] + "\n" + (JoinLf(values[1..]) + "\n" + last) == (values[0] + "\n" + JoinLf(values[1..])) + "\n" + last;
    }
  }

  lemma {:induction false} LinedIs(values: seq<string>)
    requires values != []
    ensures JoinLf(values) == Lined(values)
  {
    if |values| > 1 {
      var front, last := values[..|values| - 1], values[|values| - 1];
      LinedIs(front);
      JoinBack(front, last);
      assert front + [last] == values;
    }
  }

  lemma DispatchMeans(block: seq<string>, p: Pending, text: Option<string>)
    requires ReadSo(block, p, text)
    ensures Dispatched(p) == [] <==> !Speaks(block)
    ensures Speaks(block) ==> |Dispatched(p)| == 1 && Means(block, Dispatched(p)[0])
  {
    if p.data != [] {
      LinedIs(p.data);
    }
    if text.Some? {
      CountsIs(text.value);
    }
  }

  // --------------------------------------------------------------------- reading a text

  type Feeder = (Pending, seq<string>) -> Fed

  function Feeding(limit: nat): Feeder {
    (p: Pending, lines: seq<string>) => Feed(p, lines, limit)
  }

  /** The lines of the block are read, or they are too many characters. */
  ghost predicate FedWhole(feed: Feeder, block: seq<string>, p: Pending, more: seq<string>, limit: nat) {
    && p.chars == Size(block)
    && var f := feed(NOTHING, block + more);
       if Size(block) <= limit then f == feed(p, more) else f.tooLarge && f.frames == []
  }

  lemma LineFed(p: Pending, line: string, more: seq<string>, limit: nat)
    requires line != ""
    ensures var q := ReadLine(p.(chars := p.chars + |line|), line);
            if p.chars + |line| <= limit then Feed(p, [line] + more, limit) == Feed(q, more, limit)
            else Feed(p, [line] + more, limit).tooLarge && Feed(p, [line] + more, limit).frames == []
  {
    var f := FeedLine(p, line, limit);
    OneFed(p, line, more, limit);
    if !f.tooLarge {
      var g := Feed(f.pending, more, limit);
      assert [] + g.frames == g.frames;
    }
  }

  lemma FedNext(feed: Feeder, front: seq<string>, line: string, p: Pending, q: Pending, more: seq<string>, limit: nat)
    requires FedWhole(feed, front, p, [line] + more, limit) && q.chars == p.chars + |line|
    requires if p.chars + |line| <= limit then feed(p, [line] + more) == feed(q, more)
             else feed(p, [line] + more).tooLarge && feed(p, [line] + more).frames == []
    ensures FedWhole(feed, front + [line], q, more, limit)
  {
    assert (front + [line]) + more == front + ([line] + more);
    SizeNext(front, line);
  }

  lemma FedOn(front: seq<string>, line: string, p: Pending, more: seq<string>, limit: nat)
    requires line != "" && FedWhole(Feeding(limit), front, p, [line] + more, limit)
    ensures FedWhole(Feeding(limit), front + [line], ReadNext(p, line), more, limit)
  {
    LineFed(p, line, more, limit);
    FedNext(Feeding(limit), front, line, p, ReadNext(p, line), more, limit);
  }

  lemma NothingFed(more: seq<string>, limit: nat)
    ensures FedWhole(Feeding(limit), [], NOTHING, more, limit)
  {
    assert [] + more == more;
  }

  lemma BlockFed(block: seq<string>, more: seq<string>, limit: nat)
    requires NoBlank(block)
    ensures FedWhole(Feeding(limit), block, ReadAll(ReadNext, block), more, limit)
  {
    var feed := Feeding(limit);
    var claim: Claim := (b: seq<string>, p: Pending, m: seq<string>) => FedWhole(feed, b, p, m, limit);
    forall m ensures claim([], NOTHING, m) {
      NothingFed(m, limit);
    }
    forall f, p, l, m ensures Grows(ReadNext, claim, f, p, l, m) {
      if l != "" && FedWhole(feed, f, p, [l] + m, limit) { FedOn(f, l, p, m, limit); }
    }
    LineByLine(ReadNext, claim, block, more);
  }

  lemma OneFed(p: Pending, line: string, more: seq<string>, limit: nat)
    ensures Feed(p, [line] + more, limit)
            == (var f := FeedLine(p, line, limit); if f.tooLarge then f else Prepend(f.frames, Feed(f.pending, more, limit)))
  {
    assert ([line] + more)[0] == line && ([line] + more)[1..] == more;
  }

  /**
   A block and the blank line after it: too long, if its lines have more characters than the limit; else at
   most one frame, none exactly if all its lines are comments, and what it says is what the block means. What
   follows is read as a text of its own.
   */
  lemma BlockIs(block: seq<string>, more: seq<string>, limit: nat) returns (frames: seq<Frame>)
    requires NoBlank(block)
    ensures Size(block) > limit ==>
              Feed(NOTHING, block + ([""] + more), limit).tooLarge && Feed(NOTHING, block + ([""] + more), limit).frames == []
    ensures Size(block) <= limit ==>
              && Feed(NOTHING, block + ([""] + more), limit) == Prepend(frames, Feed(NOTHING, more, limit))
              && (frames == [] <==> !Speaks(block))
              && (frames != [] ==> |frames| == 1 && Means(block, frames[0]))
  {
    BlockFed(block, [""] + more, limit);
    var p := ReadAll(ReadNext, block);
    ReadsSo(block);
    var text :| ReadSo(block, p, text);
    frames := Dispatched(p);
    DispatchMeans(block, p, text);
    OneFed(p, "", more, limit);
    assert p.(chars := p.chars + 0) == p;
  }

  /** The end of a text, without a blank line after it: no frame, and too long if its characters, with those
      of the unfinished line, are more than the limit. */
  lemma TailIs(block: seq<string>, rest: string, limit: nat)
    requires NoBlank(block)
    ensures Verdict(Feed(NOTHING, block, limit), rest, limit) == ([], if Size(block) + |rest| > limit then TooLarge else Done)
  {
    assert block + [] == block;
    BlockFed(block, [], limit);
  }

  /** What a value set for a field means is fixed by the block: there is at most one. */
  lemma OneDecision(block: seq<string>, name: string, a: Option<string>, b: Option<string>)
    requires NoBlank(block) && Decides(block, name, a) && Decides(block, name, b)
    ensures a == b
  {
    if a.Some? && b.Some? {
      var j :| 0 <= j < |block| && Sets(block[j], name, a.value) && Unset(block, name, j + 1);
      var k :| 0 <= k < |block| && Sets(block[k], name, b.value) && Unset(block, name, k + 1);
      assert j == k;
      SaysOnly(block[j], name, a.value);
      SaysOnly(block[j], name, b.value);
    }
  }
}
