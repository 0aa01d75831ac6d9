/**
 What a connection brings of a log printed as event-stream text, cut off anywhere and chunked at
 will: a stretch of the log, as the iteration that reads it asks for.
 */
module StreamWire {
  import opened Wrappers
  import opened SseParser
  import opened SseFrames
  import opened RunStream
  import opened StreamDelivery

  /** How events are put in a frame's data: the text, and the type written beside it. */
  datatype Encoder = Encoder(data: RunEvent -> string, kind: RunEvent -> string)

  function FrameFor(event: RunEvent, enc: Encoder): Frame {
    Frame(event.eventId, Some(enc.kind(event)), Some(enc.data(event)), None)
  }

  function FramesFor(log: seq<RunEvent>, start: nat, end: nat, enc: Encoder): seq<Frame>
    requires start <= end <= |log|
    decreases end - start
  {
    if start == end then [] else [FrameFor(log[start], enc)] + FramesFor(log, start + 1, end, enc)
  }

  const RESYNC_FRAME := Frame(None, Some(RESYNC), Some(RESYNC_MARKER), None)
  const SETTLED_FRAME := Frame(None, Some(SETTLED), Some("{}"), None)

  /** The reconnect hint, then the resync marker of an unasked replay. */
  function Opening(hint: nat, resync: bool): seq<Frame> {
    [Frame(None, None, None, Some(hint))] + if resync then [RESYNC_FRAME] else []
  }

  /** The frames the server writes on one connection: events from `start`, up to `end` so far. */
  function Body(log: seq<RunEvent>, start: nat, end: nat, hint: nat, resync: bool, settled: bool, enc: Encoder): seq<Frame>
    requires start <= end <= |log|
  {
    Opening(hint, resync) + (FramesFor(log, start, end, enc) + if settled then [SETTLED_FRAME] else [])
  }

  /** The encoder's texts decode, and no event passes for a control frame. */
  predicate Faithful(event: RunEvent, enc: Encoder, decode: Decoder) {
    && decode(enc.data(event)) == Some(event)
    && enc.kind(event) != SETTLED && enc.kind(event) != RESYNC
  }

  lemma FrameCarries(log: seq<RunEvent>, i: nat, frames: seq<Frame>, enc: Encoder, decode: Decoder)
    requires Indexed(log) && i < |log| && Faithful(log[i], enc, decode)
    requires frames != [] && frames[0] == FrameFor(log[i], enc) && Carries(frames[1..], decode, log, i + 1)
    ensures Carries(frames, decode, log, i) && Count(frames, decode) == 1 + Count(frames[1..], decode)
  {
    assert NextAfter(log, log[i].eventId) == i + 1;
  }

  lemma FramesStep(log: seq<RunEvent>, start: nat, end: nat, more: seq<Frame>, frames: seq<Frame>, enc: Encoder)
    requires start < end <= |log| && frames == FramesFor(log, start, end, enc) + more
    ensures frames != [] && frames[0] == FrameFor(log[start], enc)
    ensures frames[1..] == FramesFor(log, start + 1, end, enc) + more
  {
    ConsConcat(FrameFor(log[start], enc), FramesFor(log, start + 1, end, enc), more);
  }

  lemma {:induction false} EventsCarry(log: seq<RunEvent>, start: nat, end: nat, more: seq<Frame>, frames: seq<Frame>,
                                       enc: Encoder, decode: Decoder)
    requires Indexed(log) && start <= end <= |log|
    requires forall i :: 0 <= i < |log| ==> Faithful(log[i], enc, decode)
    requires Carries(more, decode, log, end)
    requires frames == FramesFor(log, start, end, enc) + more
    ensures Carries(frames, decode, log, start) && Count(frames, decode) == end - start + Count(more, decode)
    decreases end - start
  {
    if start == end {
      assert frames == more;
    } else {
      FramesStep(log, start, end, more, frames, enc);
      EventsCarry(log, start + 1, end, more, frames[1..], enc, decode);
      FrameCarries(log, start, frames, enc, decode);
    }
  }

  lemma BodyCarries(log: seq<RunEvent>, start: nat, end: nat, hint: nat, resync: bool, settled: bool, enc: Encoder, decode: Decoder)
    requires IsLog(log) && start <= end <= |log|
    requires forall i :: 0 <= i < |log| ==> Faithful(log[i], enc, decode)
    ensures var frames := Body(log, start, end, hint, resync, settled, enc);
            Carries(frames, decode, log, start) && Count(frames, decode) == end - start
  {
    var last := if settled then [SETTLED_FRAME] else [];
    assert last != [] ==> last[1..] == [];
    LogIsIndexed(log);
    var events := FramesFor(log, start, end, enc) + last;
    EventsCarry(log, start, end, last, events, enc, decode);
    var frames := Body(log, start, end, hint, resync, settled, enc);
    if resync {
      assert frames[1..] == [RESYNC_FRAME] + events && frames[1..][1..] == events;
    } else {
      assert frames[1..] == events;
    }
  }

  lemma {:induction false} CarriesPrefix(frames: seq<Frame>, k: nat, decode: Decoder, log: seq<RunEvent>, start: nat)
    requires k <= |frames| && Carries(frames, decode, log, start)
    ensures Carries(frames[..k], decode, log, start)
    decreases k
  {
    if k > 0 {
      assert frames[..k][1..] == frames[1..][..k - 1];
      CarriesPrefix(frames[1..], k - 1, decode, log, if Carried(frames[0], decode).Some? then start + 1 else start);
    }
  }

  lemma {:induction false} KindsAreNotSettled(log: seq<RunEvent>, start: nat, end: nat, enc: Encoder, decode: Decoder)
    requires start <= end <= |log|
    requires forall i :: 0 <= i < |log| ==> Faithful(log[i], enc, decode)
    ensures forall f :: f in FramesFor(log, start, end, enc) ==> f.event != Some(SETTLED)
    decreases end - start
  {
    if start < end {
      assert Faithful(log[start], enc, decode);
      KindsAreNotSettled(log, start + 1, end, enc, decode);
    }
  }

  lemma AtTheEnd(opening: seq<Frame>, events: seq<Frame>, last: seq<Frame>, k: nat)
    requires k <= |opening| + |events| + |last| && |last| <= 1
    requires forall f :: f in opening || f in events ==> f.event != Some(SETTLED)
    requires SaysSettled((opening + (events + last))[..k])
    ensures |last| == 1 && k == |opening| + |events| + 1
  {
    var frames := opening + (events + last);
    assert forall j :: 0 <= j < |opening| ==> frames[j] == opening[j];
    assert forall j :: 0 <= j < |events| ==> frames[|opening| + j] == events[j];
    assert exists i :: 0 <= i < k && frames[i].event == Some(SETTLED) by {
      var i :| 0 <= i < k && frames[..k][i].event == Some(SETTLED);
      assert frames[i].event == Some(SETTLED);
    }
  }

  /** The settlement marker is the last frame written, if it is written at all. */
  lemma MarkerComesLast(log: seq<RunEvent>, start: nat, end: nat, hint: nat, resync: bool, settled: bool,
                        enc: Encoder, decode: Decoder, k: nat)
    requires start <= end <= |log|
    requires forall i :: 0 <= i < |log| ==> Faithful(log[i], enc, decode)
    requires k <= |Body(log, start, end, hint, resync, settled, enc)|
    requires SaysSettled(Body(log, start, end, hint, resync, settled, enc)[..k])
    ensures settled && k == |Body(log, start, end, hint, resync, settled, enc)|
  {
    KindsAreNotSettled(log, start, end, enc, decode);
    AtTheEnd(Opening(hint, resync), FramesFor(log, start, end, enc), if settled then [SETTLED_FRAME] else [], k);
  }

  /** A text cut short parses to the first of its frames. */
  lemma PrefixParses(a: string, b: string, limit: nat)
    requires !SplitPair(a, b)
    ensures OneShot(a, limit).0 <= OneShot(a + b, limit).0
  {
    LexConcat(a, b);
    FeedConcat(NOTHING, Lex(a).lines, Lex(Lex(a).rest + b).lines, limit);
  }

  lemma ParsesToFrames(blocks: seq<Block>, limit: nat)
    requires forall b :: b in blocks ==> Writable(b, limit)
    ensures OneShot(Document(blocks, [], ""), limit).0 == FramesIn(blocks) && '\r' !in Document(blocks, [], "")
  {
    DocumentLexed(blocks, [], "", limit);
    BlocksReadBack(blocks, [], limit);
    assert FramesIn(blocks) + [] == FramesIn(blocks);
  }

  /** The text of some blocks, cut off anywhere and chunked at will, parses to the first of their frames. */
  lemma CutTextParses(blocks: seq<Block>, chunks: seq<string>, limit: nat) returns (k: nat)
    requires forall b :: b in blocks ==> Writable(b, limit)
    requires Concat(chunks) <= Document(blocks, [], "")
    ensures k <= |FramesIn(blocks)| && Chunked(NOTHING, "", chunks, limit).0 == FramesIn(blocks)[..k]
  {
    var text, sent := Document(blocks, [], ""), Concat(chunks);
    var unsent := text[|sent|..];
    assert text == sent + unsent;
    ParsesToFrames(blocks, limit);
    assert forall c :: c in sent ==> c in text;
    NoCrNoSplitPair(chunks);
    ChunkingIsInvisible(chunks, limit);
    assert sent != "" ==> sent[|sent| - 1] in sent;
    PrefixParses(sent, unsent, limit);
    k := |OneShot(sent, limit).0|;
  }

  /** What one connection brings of a body written by the server, keepalive comments and all, wherever
      the pipe breaks. */
  lemma WrittenIsServed(log: seq<RunEvent>, start: nat, end: nat, hint: nat, resync: bool, settled: bool,
                        enc: Encoder, decode: Decoder, blocks: seq<Block>, chunks: seq<string>, fate: Fate, limit: nat)
    requires IsLog(log) && start <= end <= |log| && (settled ==> end == |log|)
    requires forall i :: 0 <= i < |log| ==> Faithful(log[i], enc, decode)
    requires FramesIn(blocks) == Body(log, start, end, hint, resync, settled, enc)
    requires forall b :: b in blocks ==> Writable(b, limit)
    requires Concat(chunks) <= Document(blocks, [], "")
    ensures ServesFrom(Connection(Chunked(NOTHING, "", chunks, limit).0, fate), decode, log, start)
  {
    var frames := Body(log, start, end, hint, resync, settled, enc);
    var k := CutTextParses(blocks, chunks, limit);
    BodyCarries(log, start, end, hint, resync, settled, enc, decode);
    CarriesPrefix(frames, k, decode, log, start);
    if SaysSettled(frames[..k]) {
      MarkerComesLast(log, start, end, hint, resync, settled, enc, decode, k);
      assert frames[..k] == frames;
    }
  }
}
