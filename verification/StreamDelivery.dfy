/**
 What an iteration over a run's log delivers, on connections that may drop, replay or resume.
 */
module StreamDelivery {
  import opened Wrappers
  import opened SseParser
  import opened RunStream

  function Max(a: int, b: int): int { if a >= b then a else b }

  function Flat<T>(shares: seq<seq<T>>): seq<T> {
    if shares == [] then [] else shares[0] + Flat(shares[1..])
  }

  // ------------------------------------------------------ whatever the server does

  /** The usable numbers rise, all of them past `floor`. */
  predicate Rising(events: seq<RunEvent>, floor: Option<int>)
    decreases events
  {
    events == [] ||
    (var n := events[0].number;
     if n.None? then Rising(events[1..], floor)
     else (floor.Some? ==> n.value > floor.value) && Rising(events[1..], n))
  }

  function Peak(events: seq<RunEvent>, floor: Option<int>): Option<int>
    decreases events
  {
    if events == [] then floor
    else Peak(events[1..], if events[0].number.Some? then events[0].number else floor)
  }

  lemma {:induction false} RisingConcat(xs: seq<RunEvent>, ys: seq<RunEvent>, floor: Option<int>)
    requires Rising(xs, floor) && Rising(ys, Peak(xs, floor))
    ensures Rising(xs + ys, floor)
    decreases xs
  {
    if xs == [] {
      assert xs + ys == ys;
    } else {
      assert (xs + ys)[1..] == xs[1..] + ys;
      RisingConcat(xs[1..], ys, if xs[0].number.Some? then xs[0].number else floor);
    }
  }

  lemma {:induction false} TakeAllRises(c: Client, frames: seq<Frame>, decode: Decoder)
    ensures var t := TakeAll(c, frames, decode);
            Rising(t.events, c.highest) && t.client.highest == Peak(t.events, c.highest)
    decreases frames
  {
    if frames != [] {
      var first := TakeFrame(c, frames[0], decode);
      var later := TakeAll(first.client, frames[1..], decode);
      TakeAllRises(first.client, frames[1..], decode);
      if first.events == [] {
        assert first.events + later.events == later.events;
      } else {
        assert (first.events + later.events)[1..] == later.events;
      }
    }
  }

  /** What a run yields is what its first connection yields, then what the rest of the run does. */
  lemma FlatFollow(c: Client, nth: nat, serve: Server, decode: Decoder, limits: Limits)
    ensures var t := Follow(c, nth, serve, decode, limits);
            var v := Visit(c, nth, serve, decode);
            if Reconnects(v, limits) then
              var later := Follow(Retrying(v.taken.client), nth + 1, serve, decode, limits);
              Flat(t.shares) == v.taken.events + Flat(later.shares) && t.outcome == later.outcome
            else Flat(t.shares) == v.taken.events && (t.outcome == Finished <==> v.end == Settled)
  {
    var t := Follow(c, nth, serve, decode, limits);
    var v := Visit(c, nth, serve, decode);
    assert v.taken.events + [] == v.taken.events;
    if Reconnects(v, limits) {
      assert t.shares[1..] == Follow(Retrying(v.taken.client), nth + 1, serve, decode, limits).shares;
    } else {
      assert t.shares[1..] == [];
    }
  }

  /** Whatever the server sends, no usable number is yielded twice or out of order. */
  lemma {:induction false} NumbersRise(c: Client, nth: nat, serve: Server, decode: Decoder, limits: Limits)
    ensures Rising(Flat(Follow(c, nth, serve, decode, limits).shares), c.highest)
    decreases limits.maxTotalReconnects - c.reconnects
  {
    var conn := serve(nth, c.lastEventId);
    var v := Visit(c, nth, serve, decode);
    FlatFollow(c, nth, serve, decode, limits);
    TakeAllRises(c, Pipe(conn.frames, conn.fate, false).frames, decode);
    if Reconnects(v, limits) {
      var later := Follow(Retrying(v.taken.client), nth + 1, serve, decode, limits);
      NumbersRise(Retrying(v.taken.client), nth + 1, serve, decode, limits);
      RisingConcat(v.taken.events, Flat(later.shares), c.highest);
    }
  }

  /** The first connections of the run that yield nothing. */
  function Barren(shares: seq<seq<RunEvent>>): nat {
    if shares == [] || shares[0] != [] then 0 else 1 + Barren(shares[1..])
  }

  lemma {:induction false} TakeAllAttempts(c: Client, frames: seq<Frame>, decode: Decoder)
    ensures var t := TakeAll(c, frames, decode);
            t.client.attempts == if t.events == [] then c.attempts else 0
    decreases frames
  {
    if frames != [] {
      TakeAllAttempts(TakeFrame(c, frames[0], decode).client, frames[1..], decode);
    }
  }

  /** At most `maxTotalReconnects` reconnects, whatever the server does. */
  lemma {:induction false} ReconnectsAreBounded(c: Client, nth: nat, serve: Server, decode: Decoder, limits: Limits)
    ensures var t := Follow(c, nth, serve, decode, limits);
            |t.shares| == |t.delays| + 1 <= 1 + Max(0, limits.maxTotalReconnects - c.reconnects)
    decreases limits.maxTotalReconnects - c.reconnects
  {
    var v := Visit(c, nth, serve, decode);
    if Reconnects(v, limits) {
      ReconnectsAreBounded(Retrying(v.taken.client), nth + 1, serve, decode, limits);
    }
  }

  function Budget(limits: Limits, attempts: int): int {
    1 + Max(0, limits.maxRetries - attempts)
  }

  /** From any connection on, at most `maxRetries` + 1 in a row yield nothing. */
  lemma {:induction false} BarrenStretchesAreBounded(c: Client, nth: nat, serve: Server, decode: Decoder, limits: Limits, from: nat)
    requires c.attempts >= 0 && from <= |Follow(c, nth, serve, decode, limits).shares|
    ensures Barren(Follow(c, nth, serve, decode, limits).shares[from..])
            <= Budget(limits, if from == 0 then c.attempts else 0)
    decreases limits.maxTotalReconnects - c.reconnects
  {
    var t := Follow(c, nth, serve, decode, limits);
    var conn := serve(nth, c.lastEventId);
    var piped := Pipe(conn.frames, conn.fate, false);
    var v := Visit(c, nth, serve, decode);
    TakeAllAttempts(c, piped.frames, decode);
    if Reconnects(v, limits) {
      var d := Retrying(v.taken.client);
      var later := Follow(d, nth + 1, serve, decode, limits);
      if from == 0 {
        assert t.shares[0..][1..] == later.shares[0..];
        BarrenStretchesAreBounded(d, nth + 1, serve, decode, limits, 0);
      } else {
        assert t.shares[from..] == later.shares[from - 1..];
        BarrenStretchesAreBounded(d, nth + 1, serve, decode, limits, from - 1);
      }
    } else {
      assert t.shares[1..] == [];
      assert from > 0 ==> t.shares[from..] == [];
    }
  }

  predicate Paced(delays: seq<int>, given: int) {
    forall d :: d in delays ==> d == given || MIN_STREAM_RETRY_DELAY_MS <= d <= MAX_STREAM_RETRY_DELAY_MS
  }

  lemma {:induction false} HintsAreClamped(c: Client, frames: seq<Frame>, decode: Decoder, given: int)
    requires Paced([c.retryDelay], given)
    ensures Paced([TakeAll(c, frames, decode).client.retryDelay], given)
    decreases frames
  {
    if frames != [] {
      HintsAreClamped(TakeFrame(c, frames[0], decode).client, frames[1..], decode, given);
    }
  }

  /** No delay but the caller's own lies outside the client's bounds, whatever the server hints. */
  lemma {:induction false} DelaysAreBounded(c: Client, nth: nat, serve: Server, decode: Decoder, limits: Limits, given: int)
    requires Paced([c.retryDelay], given)
    ensures Paced(Follow(c, nth, serve, decode, limits).delays, given)
    decreases limits.maxTotalReconnects - c.reconnects
  {
    var conn := serve(nth, c.lastEventId);
    var piped := Pipe(conn.frames, conn.fate, false);
    var v := Visit(c, nth, serve, decode);
    HintsAreClamped(c, piped.frames, decode, given);
    if Reconnects(v, limits) {
      assert v.taken.client.retryDelay in [v.taken.client.retryDelay];
      DelaysAreBounded(Retrying(v.taken.client), nth + 1, serve, decode, limits, given);
    }
  }

  // ------------------------------------------------- a server that serves one log

  /** The log: the i-th event has seq i, and ids are not reused. */
  predicate IsLog(log: seq<RunEvent>) {
    && (forall i :: 0 <= i < |log| ==> log[i].number == Some(i) && log[i].eventId.Some?)
    && (forall i, j :: 0 <= i < j < |log| ==> log[i].eventId != log[j].eventId)
  }

  /** Where a log is resumed after the event of that id: at its beginning, if there is none. */
  function NextAfter(log: seq<RunEvent>, id: Option<string>): (n: nat)
    ensures n <= |log|
  {
    if log == [] || id == None then 0
    else if log[|log| - 1].eventId == id then |log|
    else NextAfter(log[..|log| - 1], id)
  }

  /** The event a frame carries to the iteration. */
  function Carried(f: Frame, decode: Decoder): Option<RunEvent> {
    if Control(f) then None else EventIn(f, decode)
  }

  function Count(frames: seq<Frame>, decode: Decoder): nat {
    if frames == [] then 0 else (if Carried(frames[0], decode).Some? then 1 else 0) + Count(frames[1..], decode)
  }

  /** The frames carry the log's events from `start` on, one after the other, under ids that resume no later. */
  predicate Carries(frames: seq<Frame>, decode: Decoder, log: seq<RunEvent>, start: nat)
    decreases frames
  {
    frames == [] ||
    match Carried(frames[0], decode)
    case None => Carries(frames[1..], decode, log, start)
    case Some(event) =>
      && start < |log| && event == log[start]
      && NextAfter(log, frames[0].id) <= start + 1
      && Carries(frames[1..], decode, log, start + 1)
  }

  predicate SaysSettled(frames: seq<Frame>) {
    exists i :: 0 <= i < |frames| && frames[i].event == Some(SETTLED)
  }

  /** A stretch of the log from `start`; marked as settled only if it reaches the log's end. */
  predicate ServesFrom(conn: Connection, decode: Decoder, log: seq<RunEvent>, start: nat) {
    && Carries(conn.frames, decode, log, start)
    && (SaysSettled(conn.frames) && conn.fate == Eof ==> start + Count(conn.frames, decode) == |log|)
  }

  /** Where an answer may start: at the cursor's successor or, unless `exact`, before it. */
  predicate MayStart(log: seq<RunEvent>, cursor: Option<string>, exact: bool, start: nat) {
    start <= NextAfter(log, cursor) && (exact ==> start == NextAfter(log, cursor))
  }

  ghost predicate Answers(conn: Connection, decode: Decoder, log: seq<RunEvent>, cursor: Option<string>, exact: bool) {
    exists start: nat :: MayStart(log, cursor, exact, start) && ServesFrom(conn, decode, log, start)
  }

  ghost predicate Honest(serve: Server, decode: Decoder, log: seq<RunEvent>, exact: bool) {
    forall n: nat, cursor :: Answers(serve(n, cursor), decode, log, cursor, exact)
  }

  /** No control frames. */
  predicate Quiet(frames: seq<Frame>) {
    frames == [] || (!Control(frames[0]) && Quiet(frames[1..]))
  }

  lemma {:induction false} PipeCarries(frames: seq<Frame>, fate: Fate, settled: bool, decode: Decoder,
                                       log: seq<RunEvent>, start: nat)
    requires Carries(frames, decode, log, start)
    ensures var p := Pipe(frames, fate, settled);
            && Carries(p.frames, decode, log, start) && Quiet(p.frames)
            && (p.end == Settled ==> fate == Eof && (settled || SaysSettled(frames))
                                     && Count(p.frames, decode) == Count(frames, decode))
    decreases frames
  {
    if frames != [] {
      var saw := settled || frames[0].event == Some(SETTLED);
      var next := if Carried(frames[0], decode).Some? then start + 1 else start;
      PipeCarries(frames[1..], fate, saw, decode, log, next);
      assert SaysSettled(frames[1..]) ==> SaysSettled(frames) by {
        if SaysSettled(frames[1..]) {
          var i :| 0 <= i < |frames[1..]| && frames[1..][i].event == Some(SETTLED);
          assert frames[i + 1].event == Some(SETTLED);
        }
      }
      if !Control(frames[0]) {
        var p := Pipe(frames, fate, settled);
        assert p.frames[1..] == Pipe(frames[1..], fate, settled).frames;
      }
    }
  }

  /** The client has yielded the log up to `past`, and its cursor resumes no later. */
  predicate UpTo(c: Client, log: seq<RunEvent>, past: nat) {
    past > 0 && c.highest == Some(past - 1) && NextAfter(log, c.lastEventId) <= past
  }

  lemma {:induction false} ResumesAfterEvent(log: seq<RunEvent>, i: nat)
    requires IsLog(log) && i < |log|
    ensures NextAfter(log, log[i].eventId) == i + 1
  {
    if i < |log| - 1 {
      ResumesAfterEvent(log[..|log| - 1], i);
    }
  }

  /** Every event carries its index, and is resumed just past it. */
  predicate Indexed(log: seq<RunEvent>) {
    && (forall i :: 0 <= i < |log| ==> log[i].number == Some(i))
    && (forall i {:trigger NextAfter(log, log[i].eventId)} :: 0 <= i < |log| ==> NextAfter(log, log[i].eventId) == i + 1)
  }

  lemma LogIsIndexed(log: seq<RunEvent>)
    requires IsLog(log)
    ensures Indexed(log)
  {
    forall i | 0 <= i < |log| ensures NextAfter(log, log[i].eventId) == i + 1 {
      ResumesAfterEvent(log, i);
    }
  }

  lemma TakeCarried(c: Client, f: Frame, decode: Decoder, log: seq<RunEvent>, start: nat, past: nat)
    requires Indexed(log) && start < |log| && EventIn(f, decode) == Some(log[start])
    requires NextAfter(log, f.id) <= start + 1
    requires (UpTo(c, log, past) && start <= past) || (c.highest == None && start == past)
    ensures var t := TakeFrame(c, f, decode);
            if start < past then t.events == [] && UpTo(t.client, log, past)
            else t.events == [log[start]] && UpTo(t.client, log, past + 1)
  {
    assert NextAfter(log, log[start].eventId) == start + 1;
  }

  lemma TakeIgnored(c: Client, f: Frame, decode: Decoder)
    requires EventIn(f, decode) == None
    ensures var t := TakeFrame(c, f, decode);
            t.events == [] && t.client.highest == c.highest && t.client.lastEventId == c.lastEventId
  {
  }

  /** log[a..b], event by event. */
  function Span(log: seq<RunEvent>, a: nat, b: nat): seq<RunEvent>
    requires a <= b <= |log|
    decreases b - a
  {
    if a == b then [] else [log[a]] + Span(log, a + 1, b)
  }

  lemma {:induction false} SpanIsSlice(log: seq<RunEvent>, a: nat, b: nat)
    requires a <= b <= |log|
    ensures Span(log, a, b) == log[a..b]
    decreases b - a
  {
    if a < b {
      SpanIsSlice(log, a + 1, b);
    }
  }

  /** Taking the frames yields the log from `past` up to `end`. */
  predicate Yields(c: Client, frames: seq<Frame>, decode: Decoder, log: seq<RunEvent>, past: nat, end: nat) {
    past <= end <= |log| && TakeAll(c, frames, decode).events == Span(log, past, end)
  }

  predicate EndsAt(c: Client, frames: seq<Frame>, decode: Decoder, log: seq<RunEvent>, end: nat) {
    UpTo(TakeAll(c, frames, decode).client, log, end)
  }

  lemma TakeOne(c: Client, frames: seq<Frame>, decode: Decoder, log: seq<RunEvent>, past: nat, mid: nat, end: nat)
    requires frames != [] && past <= mid <= past + 1
    requires var first := TakeFrame(c, frames[0], decode);
             && Yields(first.client, frames[1..], decode, log, mid, end)
             && past <= |log| && first.events == Span(log, past, mid)
    ensures Yields(c, frames, decode, log, past, end)
    ensures forall e: nat :: EndsAt(TakeFrame(c, frames[0], decode).client, frames[1..], decode, log, e) ==> EndsAt(c, frames, decode, log, e)
  {
    var later := TakeAll(TakeFrame(c, frames[0], decode).client, frames[1..], decode).events;
    assert [] + later == later;
    assert mid == past + 1 ==> [log[past]] + [] == [log[past]];
  }

  /** Taking a stretch that starts no later than just past the highest event yielded. */
  lemma {:induction false} TakeStretch(c: Client, frames: seq<Frame>, decode: Decoder, log: seq<RunEvent>, start: nat, past: nat)
    requires Indexed(log) && Carries(frames, decode, log, start) && Quiet(frames)
    requires start <= past <= |log| && UpTo(c, log, past)
    ensures var end := Max(past, start + Count(frames, decode));
            Yields(c, frames, decode, log, past, end) && EndsAt(c, frames, decode, log, end)
    decreases frames
  {
    if frames != [] {
      var first := TakeFrame(c, frames[0], decode);
      var end := Max(past, start + Count(frames, decode));
      if Carried(frames[0], decode).None? {
        TakeIgnored(c, frames[0], decode);
        TakeStretch(first.client, frames[1..], decode, log, start, past);
        TakeOne(c, frames, decode, log, past, past, end);
      } else {
        TakeCarried(c, frames[0], decode, log, start, past);
        TakeStretch(first.client, frames[1..], decode, log, start + 1, Max(past, start + 1));
        TakeOne(c, frames, decode, log, past, Max(past, start + 1), end);
      }
    }
  }

  predicate Unmoved(c: Client, d: Client) {
    c.highest == None && d.highest == None && d.lastEventId == c.lastEventId
  }

  lemma TakeFirstEvent(c: Client, frames: seq<Frame>, decode: Decoder, log: seq<RunEvent>, start: nat)
    requires Indexed(log) && Carries(frames, decode, log, start) && Quiet(frames)
    requires c.highest == None && start <= |log| && frames != [] && Carried(frames[0], decode).Some?
    ensures var end := start + Count(frames, decode);
            Yields(c, frames, decode, log, start, end) && EndsAt(c, frames, decode, log, end) && end > start
  {
    var first := TakeFrame(c, frames[0], decode);
    var end := start + Count(frames, decode);
    TakeCarried(c, frames[0], decode, log, start, start);
    TakeStretch(first.client, frames[1..], decode, log, start + 1, start + 1);
    TakeOne(c, frames, decode, log, start, start + 1, end);
  }

  /** Before anything was yielded, a stretch is yielded from its start. */
  lemma {:induction false} TakeFirst(c: Client, frames: seq<Frame>, decode: Decoder, log: seq<RunEvent>, start: nat)
    requires Indexed(log) && Carries(frames, decode, log, start) && Quiet(frames)
    requires c.highest == None && start <= |log|
    ensures var end := start + Count(frames, decode);
            && Yields(c, frames, decode, log, start, end)
            && (if end == start then Unmoved(c, TakeAll(c, frames, decode).client) else EndsAt(c, frames, decode, log, end))
    decreases frames
  {
    if frames != [] {
      if Carried(frames[0], decode).None? {
        var first := TakeFrame(c, frames[0], decode);
        var end := start + Count(frames, decode);
        TakeIgnored(c, frames[0], decode);
        TakeFirst(first.client, frames[1..], decode, log, start);
        TakeOne(c, frames, decode, log, start, start, end);
      } else {
        TakeFirstEvent(c, frames, decode, log, start);
      }
    }
  }

  // ------------------------------------------------------------------ what arrives

  /**
   The events are a stretch of the log that starts at `from` or before, at `from` if `exact`,
   and reaches the end of the log if `done`.
   */
  ghost predicate Stretch(events: seq<RunEvent>, log: seq<RunEvent>, from: nat, exact: bool, done: bool) {
    exists a: nat, b: nat :: IsStretch(events, log, from, exact, done, a, b)
  }

  predicate IsStretch(events: seq<RunEvent>, log: seq<RunEvent>, from: nat, exact: bool, done: bool, a: nat, b: nat) {
    a <= from && (exact ==> a == from) && a <= b <= |log| && events == Span(log, a, b) && (done ==> b == |log|)
  }

  lemma {:induction false} Adjoin(log: seq<RunEvent>, a: nat, m: nat, b: nat)
    requires a <= m <= b <= |log|
    ensures Span(log, a, m) + Span(log, m, b) == Span(log, a, b)
    decreases m - a
  {
    if a < m {
      Adjoin(log, a + 1, m, b);
      ConsConcat(log[a], Span(log, a + 1, m), Span(log, m, b));
    } else {
      assert [] + Span(log, m, b) == Span(log, m, b);
    }
  }

  lemma ConsConcat<T>(x: T, xs: seq<T>, ys: seq<T>)
    ensures ([x] + xs) + ys == [x] + (xs + ys)
  {
  }

  /** What reaches the iteration of a served connection. */
  lemma PipedStretch(conn: Connection, decode: Decoder, log: seq<RunEvent>, start: nat)
    requires ServesFrom(conn, decode, log, start)
    ensures var p := Pipe(conn.frames, conn.fate, false);
            && Carries(p.frames, decode, log, start) && Quiet(p.frames)
            && (p.end == Settled ==> start + Count(p.frames, decode) == |log|)
  {
    PipeCarries(conn.frames, conn.fate, false, decode, log, start);
  }

  /** One connection, seen from a client that has yielded the log up to `past`. */
  lemma VisitResumes(c: Client, nth: nat, serve: Server, decode: Decoder, log: seq<RunEvent>, exact: bool, past: nat)
    returns (end: nat)
    requires Indexed(log) && Honest(serve, decode, log, exact) && past <= |log| && UpTo(c, log, past)
    ensures var v := Visit(c, nth, serve, decode);
            && past <= end <= |log| && v.taken.events == Span(log, past, end) && UpTo(v.taken.client, log, end)
            && (v.end == Settled ==> end == |log|)
  {
    var conn := serve(nth, c.lastEventId);
    assert Answers(conn, decode, log, c.lastEventId, exact);
    var start: nat :| MayStart(log, c.lastEventId, exact, start) && ServesFrom(conn, decode, log, start);
    var frames := Pipe(conn.frames, conn.fate, false).frames;
    PipedStretch(conn, decode, log, start);
    TakeStretch(c, frames, decode, log, start, past);
    end := Max(past, start + Count(frames, decode));
  }

  /** From there on, the whole iteration yields on, without a gap or a repeat. */
  lemma {:induction false} ResumedRun(c: Client, nth: nat, serve: Server, decode: Decoder, limits: Limits,
                                      log: seq<RunEvent>, exact: bool, past: nat) returns (end: nat)
    requires Indexed(log) && Honest(serve, decode, log, exact) && past <= |log| && UpTo(c, log, past)
    ensures var t := Follow(c, nth, serve, decode, limits);
            && past <= end <= |log| && Flat(t.shares) == Span(log, past, end)
            && (t.outcome == Finished ==> end == |log|)
    decreases limits.maxTotalReconnects - c.reconnects
  {
    var v := Visit(c, nth, serve, decode);
    var m := VisitResumes(c, nth, serve, decode, log, exact, past);
    FlatFollow(c, nth, serve, decode, limits);
    end := m;
    if Reconnects(v, limits) {
      end := ResumedRun(Retrying(v.taken.client), nth + 1, serve, decode, limits, log, exact, m);
      Adjoin(log, past, m, end);
    }
  }

  /** The same from a client that has yielded nothing yet. */
  lemma VisitStarts(c: Client, nth: nat, serve: Server, decode: Decoder, log: seq<RunEvent>, exact: bool)
    returns (start: nat, end: nat)
    requires Indexed(log) && Honest(serve, decode, log, exact) && c.highest == None
    ensures MayStart(log, c.lastEventId, exact, start) && start <= end <= |log|
    ensures var v := Visit(c, nth, serve, decode);
            && v.taken.events == Span(log, start, end)
            && (if end == start then Unmoved(c, v.taken.client) else UpTo(v.taken.client, log, end))
            && (v.end == Settled ==> end == |log|)
  {
    var conn := serve(nth, c.lastEventId);
    assert Answers(conn, decode, log, c.lastEventId, exact);
    start :| MayStart(log, c.lastEventId, exact, start) && ServesFrom(conn, decode, log, start);
    var frames := Pipe(conn.frames, conn.fate, false).frames;
    PipedStretch(conn, decode, log, start);
    TakeFirst(c, frames, decode, log, start);
    end := start + Count(frames, decode);
  }

  /**
   An iteration over a log, on connections that drop anywhere and resume or replay: what it
   yields is one stretch of the log, each event once and in order, that leaves nothing out past
   the starting cursor; and it ends at the log's end if the iteration returns.
   */
  lemma {:induction false} DeliversTheLog(c: Client, nth: nat, serve: Server, decode: Decoder, limits: Limits,
                                          log: seq<RunEvent>, exact: bool)
    requires IsLog(log) && Honest(serve, decode, log, exact) && c.highest == None
    ensures var t := Follow(c, nth, serve, decode, limits);
            Stretch(Flat(t.shares), log, NextAfter(log, c.lastEventId), exact, t.outcome == Finished)
    decreases limits.maxTotalReconnects - c.reconnects
  {
    var t := Follow(c, nth, serve, decode, limits);
    var v := Visit(c, nth, serve, decode);
    var from, done := NextAfter(log, c.lastEventId), t.outcome == Finished;
    LogIsIndexed(log);
    var start, m := VisitStarts(c, nth, serve, decode, log, exact);
    FlatFollow(c, nth, serve, decode, limits);
    if !Reconnects(v, limits) {
      assert IsStretch(Flat(t.shares), log, from, exact, done, start, m);
    } else if m == start {
      DeliversTheLog(Retrying(v.taken.client), nth + 1, serve, decode, limits, log, exact);
      assert Flat(t.shares) == Flat(Follow(Retrying(v.taken.client), nth + 1, serve, decode, limits).shares);
    } else {
      var end := ResumedRun(Retrying(v.taken.client), nth + 1, serve, decode, limits, log, exact, m);
      Adjoin(log, start, m, end);
      assert IsStretch(Flat(t.shares), log, from, exact, done, start, end);
    }
  }

  /** A consumer that stops after `k` events, be it in the middle of a connection, has had a stretch of
      the log too. */
  lemma StoppedEarly(events: seq<RunEvent>, log: seq<RunEvent>, from: nat, exact: bool, done: bool, k: nat)
    requires Stretch(events, log, from, exact, done) && k <= |events|
    ensures Stretch(events[..k], log, from, exact, false)
  {
    var a: nat, b: nat :| IsStretch(events, log, from, exact, done, a, b);
    SpanIsSlice(log, a, b);
    SpanIsSlice(log, a, a + k);
    assert log[a..b][..k] == log[a..a + k];
    assert IsStretch(events[..k], log, from, exact, false, a, a + k);
  }

  // ------------------------------------------------------------------ one drain

  lemma {:induction false} DecodesStretch(frames: seq<Frame>, decode: Decoder, log: seq<RunEvent>, start: nat)
    requires Carries(frames, decode, log, start) && Quiet(frames) && start <= |log|
    ensures start + Count(frames, decode) <= |log|
    ensures Decoded(frames, decode) == Span(log, start, start + Count(frames, decode))
    decreases frames
  {
    if frames != [] {
      DecodesStretch(frames[1..], decode, log, if Carried(frames[0], decode).Some? then start + 1 else start);
    }
  }

  /** What a drain of a log answers: nothing, or all of the log past its cursor, in order; and if the
      server may replay, from some earlier event on. */
  lemma DrainDelivers(serve: Server, decode: Decoder, log: seq<RunEvent>, exact: bool, cursor: Option<string>)
    returns (start: nat)
    requires IsLog(log) && Honest(serve, decode, log, exact)
    ensures MayStart(log, cursor, exact, start)
    ensures Drained(serve, decode, cursor).Some? ==> Drained(serve, decode, cursor).value == log[start..]
  {
    var conn := serve(0, cursor);
    assert Answers(conn, decode, log, cursor, exact);
    start :| MayStart(log, cursor, exact, start) && ServesFrom(conn, decode, log, start);
    PipedStretch(conn, decode, log, start);
    var frames := Pipe(conn.frames, conn.fate, false).frames;
    DecodesStretch(frames, decode, log, start);
    SpanIsSlice(log, start, start + Count(frames, decode));
    assert log[start..|log|] == log[start..];
  }
}
