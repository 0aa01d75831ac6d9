/**
 The client's view of a run's event log: an iteration that reconnects, resumes from the last
 event it yielded, and drops what a replay repeats.

 A connection is the frames its body parses into and how it ends. Aborting and sleeping are
 kept only as an outcome and as the delays asked for.
 */
module RunStream {
  import opened Wrappers
  import opened SseParser

  /** `number` is the event's seq, if it is usable as one. */
  datatype RunEvent = RunEvent(eventId: Option<string>, number: Option<int>, body: string)

  /** How a response body ends: cleanly, by a broken pipe, or as an answer that no retry changes. */
  datatype Fate = Eof | Broken | Refused

  datatype Connection = Connection(frames: seq<Frame>, fate: Fate)

  /** Answers the n-th request, which carries the given resume cursor. */
  type Server = (nat, Option<string>) -> Connection

  /** The event in a frame's data, or None if the data is not an event. */
  type Decoder = string -> Option<RunEvent>

  const SETTLED := "agentkit.stream.settled"
  const RESYNC := "agentkit.stream.resync"
  const RESYNC_MARKER := "{\"reason\":\"unknown_last_event_id\"}"

  const DEFAULT_STREAM_MAX_RETRIES := 5
  const DEFAULT_STREAM_RETRY_DELAY_MS := 500
  const DEFAULT_STREAM_MAX_TOTAL_RECONNECTS := 50
  const MIN_STREAM_RETRY_DELAY_MS := 250
  const MAX_STREAM_RETRY_DELAY_MS := 30_000

  // --------------------------------------------------------------- one connection

  datatype End = Settled | Broke | Answered

  datatype Piped = Piped(frames: seq<Frame>, end: End)

  function EndOf(fate: Fate, settled: bool): End {
    match fate
    case Eof => if settled then Settled else Broke
    case Broken => Broke
    case Refused => Answered
  }

  predicate Control(f: Frame) {
    f.event == Some(SETTLED) || f.event == Some(RESYNC)
  }

  /** The frames that reach the iteration, control frames taken out, and how the connection ends. */
  function Pipe(frames: seq<Frame>, fate: Fate, settled: bool): Piped
    decreases frames
  {
    if frames == [] then Piped([], EndOf(fate, settled))
    else if frames[0].event == Some(SETTLED) then Pipe(frames[1..], fate, true)
    else if frames[0].event == Some(RESYNC) then
      if frames[0].data == Some(RESYNC_MARKER) then Pipe(frames[1..], fate, settled) else Piped([], Broke)
    else
      var later := Pipe(frames[1..], fate, settled);
      Piped([frames[0]] + later.frames, later.end)
  }

  method Connect(conn: Connection) returns (frames: seq<Frame>, end: End)
    ensures Piped(frames, end) == Pipe(conn.frames, conn.fate, false)
  {
    frames := [];
    var settled := false;
    for i := 0 to |conn.frames|
      invariant var later := Pipe(conn.frames[i..], conn.fate, settled);
                Pipe(conn.frames, conn.fate, false) == Piped(frames + later.frames, later.end)
    {
      var frame := conn.frames[i];
      assert conn.frames[i..][1..] == conn.frames[i + 1..];
      if frame.event == Some(SETTLED) {
        settled := true;
      } else if frame.event == Some(RESYNC) {
        if frame.data != Some(RESYNC_MARKER) { return frames, Broke; }
      } else {
        Regrouped(frames, frame, Pipe(conn.frames[i + 1..], conn.fate, settled).frames);
        frames := frames + [frame];
      }
    }
    return frames, EndOf(conn.fate, settled);
  }

  lemma Regrouped<T>(xs: seq<T>, x: T, ys: seq<T>)
    ensures xs + ([x] + ys) == (xs + [x]) + ys
  {
  }

  // ---------------------------------------------------------------- the iteration

  /** The iteration's variables. */
  datatype Client = Client(lastEventId: Option<string>, attempts: int, reconnects: int,
                           highest: Option<int>, retryDelay: int)

  datatype Limits = Limits(maxRetries: int, maxTotalReconnects: int)

  function ClampRetry(hint: int): int {
    if hint < MIN_STREAM_RETRY_DELAY_MS then MIN_STREAM_RETRY_DELAY_MS
    else if hint > MAX_STREAM_RETRY_DELAY_MS then MAX_STREAM_RETRY_DELAY_MS
    else hint
  }

  function Hinted(c: Client, f: Frame): Client {
    if f.retry.Some? then c.(retryDelay := ClampRetry(f.retry.value)) else c
  }

  function EventIn(f: Frame, decode: Decoder): Option<RunEvent> {
    if f.data.Some? then decode(f.data.value) else None
  }

  predicate Replayed(c: Client, event: RunEvent) {
    event.number.Some? && c.highest.Some? && event.number.value <= c.highest.value
  }

  /** A yielded event moves the cursor and earns back the retry budget. */
  function Advanced(c: Client, f: Frame, event: RunEvent): Client {
    c.(lastEventId := if f.id.Some? then f.id else event.eventId,
       attempts := 0,
       highest := if event.number.Some? then event.number else c.highest)
  }

  datatype Taken = Taken(client: Client, events: seq<RunEvent>)

  function TakeFrame(c: Client, f: Frame, decode: Decoder): Taken {
    var hinted := Hinted(c, f);
    match EventIn(f, decode)
    case None => Taken(hinted, [])
    case Some(event) =>
      if Replayed(hinted, event) then Taken(hinted, []) else Taken(Advanced(hinted, f, event), [event])
  }

  function TakeAll(c: Client, frames: seq<Frame>, decode: Decoder): Taken
    decreases frames
  {
    if frames == [] then Taken(c, [])
    else
      var first := TakeFrame(c, frames[0], decode);
      var later := TakeAll(first.client, frames[1..], decode);
      Taken(later.client, first.events + later.events)
  }

  datatype Outcome = Finished | GaveUp | Threw

  /** What was yielded on each connection, the delays slept between them, and how it ended. */
  datatype Trace = Trace(shares: seq<seq<RunEvent>>, delays: seq<int>, outcome: Outcome)

  predicate Spent(c: Client, limits: Limits) {
    c.attempts >= limits.maxRetries || c.reconnects >= limits.maxTotalReconnects
  }

  function Retrying(c: Client): Client {
    c.(attempts := c.attempts + 1, reconnects := c.reconnects + 1)
  }

  function Extend(share: seq<RunEvent>, delay: int, t: Trace): Trace {
    Trace([share] + t.shares, [delay] + t.delays, t.outcome)
  }

  datatype Visited = Visited(end: End, taken: Taken)

  /** One connection: how it ended, and what was taken from it. */
  function Visit(c: Client, nth: nat, serve: Server, decode: Decoder): (v: Visited)
    ensures v.taken.client.reconnects == c.reconnects
  {
    var conn := serve(nth, c.lastEventId);
    var piped := Pipe(conn.frames, conn.fate, false);
    KeepsReconnects(c, piped.frames, decode);
    Visited(piped.end, TakeAll(c, piped.frames, decode))
  }

  predicate Reconnects(v: Visited, limits: Limits) {
    v.end == Broke && !Spent(v.taken.client, limits)
  }

  function Follow(c: Client, nth: nat, serve: Server, decode: Decoder, limits: Limits): Trace
    decreases limits.maxTotalReconnects - c.reconnects
  {
    var v := Visit(c, nth, serve, decode);
    if Reconnects(v, limits) then
      Extend(v.taken.events, v.taken.client.retryDelay,
             Follow(Retrying(v.taken.client), nth + 1, serve, decode, limits))
    else
      Trace([v.taken.events], [], match v.end
                                  case Settled => Finished
                                  case Answered => Threw
                                  case Broke => GaveUp)
  }

  lemma {:induction false} KeepsReconnects(c: Client, frames: seq<Frame>, decode: Decoder)
    ensures TakeAll(c, frames, decode).client.reconnects == c.reconnects
    decreases frames
  {
    if frames != [] {
      KeepsReconnects(TakeFrame(c, frames[0], decode).client, frames[1..], decode);
    }
  }

  datatype StreamOptions = StreamOptions(lastEventId: Option<string>, maxRetries: Option<int>,
                                         maxTotalReconnects: Option<int>, retryDelayMs: Option<int>)

  function LimitsOf(options: StreamOptions): Limits {
    Limits(options.maxRetries.GetOr(DEFAULT_STREAM_MAX_RETRIES),
           options.maxTotalReconnects.GetOr(DEFAULT_STREAM_MAX_TOTAL_RECONNECTS))
  }

  function Fresh(options: StreamOptions): Client {
    Client(options.lastEventId, 0, 0, None, options.retryDelayMs.GetOr(DEFAULT_STREAM_RETRY_DELAY_MS))
  }

  /** One frame: its hint, then its event unless that was yielded before. */
  method ReadFrame(frame: Frame, decode: Decoder, c: Client)
    returns (lastEventId: Option<string>, attempts: int, highest: Option<int>, retryDelay: int, events: seq<RunEvent>)
    ensures TakeFrame(c, frame, decode) == Taken(Client(lastEventId, attempts, c.reconnects, highest, retryDelay), events)
  {
    lastEventId, attempts, highest, retryDelay := c.lastEventId, c.attempts, c.highest, c.retryDelay;
    events := [];
    if frame.retry.Some? { retryDelay := ClampRetry(frame.retry.value); }
    if frame.data.None? { return; }
    var event := decode(frame.data.value);
    if event.None? { return; }
    if event.value.number.Some? {
      if highest.Some? && event.value.number.value <= highest.value { return; }
      highest := event.value.number;
    }
    lastEventId := if frame.id.Some? then frame.id else event.value.eventId;
    attempts := 0;
    events := [event.value];
  }

  function MoreTaken(events: seq<RunEvent>, t: Taken): Taken {
    Taken(t.client, events + t.events)
  }

  lemma TakeNext(c: Client, frames: seq<Frame>, i: nat, events: seq<RunEvent>, decode: Decoder)
    requires i < |frames|
    ensures var first := TakeFrame(c, frames[i], decode);
            MoreTaken(events, TakeAll(c, frames[i..], decode))
            == MoreTaken(events + first.events, TakeAll(first.client, frames[i + 1..], decode))
  {
    var first := TakeFrame(c, frames[i], decode);
    var later := TakeAll(first.client, frames[i + 1..], decode);
    assert frames[i..][1..] == frames[i + 1..];
    assert events + (first.events + later.events) == (events + first.events) + later.events;
  }

  /** The loop over one connection's frames. */
  method TakeFrames(frames: seq<Frame>, decode: Decoder, c: Client)
    returns (lastEventId: Option<string>, attempts: int, highest: Option<int>, retryDelay: int, events: seq<RunEvent>)
    ensures TakeAll(c, frames, decode) == Taken(Client(lastEventId, attempts, c.reconnects, highest, retryDelay), events)
  {
    lastEventId, attempts, highest, retryDelay := c.lastEventId, c.attempts, c.highest, c.retryDelay;
    events := [];
    assert frames[0..] == frames;
    for i := 0 to |frames|
      invariant TakeAll(c, frames, decode)
             == MoreTaken(events, TakeAll(Client(lastEventId, attempts, c.reconnects, highest, retryDelay), frames[i..], decode))
    {
      var now := Client(lastEventId, attempts, c.reconnects, highest, retryDelay);
      TakeNext(now, frames, i, events, decode);
      var more;
      lastEventId, attempts, highest, retryDelay, more := ReadFrame(frames[i], decode, now);
      events := events + more;
    }
  }

  function Since(shares: seq<seq<RunEvent>>, delays: seq<int>, t: Trace): Trace {
    Trace(shares + t.shares, delays + t.delays, t.outcome)
  }

  lemma SinceExtended(shares: seq<seq<RunEvent>>, delays: seq<int>, share: seq<RunEvent>, delay: int, t: Trace)
    ensures Since(shares, delays, Extend(share, delay, t)) == Since(shares + [share], delays + [delay], t)
  {
    Regrouped(shares, share, t.shares);
    Regrouped(delays, delay, t.delays);
  }

  method Iterate(serve: Server, decode: Decoder, options: StreamOptions)
    returns (shares: seq<seq<RunEvent>>, delays: seq<int>, outcome: Outcome)
    ensures Trace(shares, delays, outcome) == Follow(Fresh(options), 0, serve, decode, LimitsOf(options))
  {
    var limits := LimitsOf(options);
    var retryDelay := options.retryDelayMs.GetOr(DEFAULT_STREAM_RETRY_DELAY_MS);
    var lastEventId, attempts, reconnects := options.lastEventId, 0, 0;
    var highest: Option<int> := None;
    shares, delays := [], [];
    var nth := 0;
    while true
      invariant Follow(Fresh(options), 0, serve, decode, limits)
             == Since(shares, delays, Follow(Client(lastEventId, attempts, reconnects, highest, retryDelay), nth, serve, decode, limits))
      decreases limits.maxTotalReconnects - reconnects
    {
      var frames, end := Connect(serve(nth, lastEventId));
      var events;
      lastEventId, attempts, highest, retryDelay, events :=
        TakeFrames(frames, decode, Client(lastEventId, attempts, reconnects, highest, retryDelay));
      match end {
        case Settled => return shares + [events], delays, Finished;
        case Answered => return shares + [events], delays, Threw;
        case Broke =>
          if attempts >= limits.maxRetries || reconnects >= limits.maxTotalReconnects {
            return shares + [events], delays, GaveUp;
          }
          attempts := attempts + 1;
          reconnects := reconnects + 1;
          ghost var later := Follow(Client(lastEventId, attempts, reconnects, highest, retryDelay), nth + 1, serve, decode, limits);
          SinceExtended(shares, delays, events, retryDelay, later);
          shares, delays := shares + [events], delays + [retryDelay];
          nth := nth + 1;
      }
    }
  }

  /** One resumed pass: no reconnect, and nothing dropped as a replay. None: the call failed. */
  method DrainRun(serve: Server, decode: Decoder, lastEventId: Option<string>) returns (events: Option<seq<RunEvent>>)
    ensures events == Drained(serve, decode, lastEventId)
  {
    var frames, end := Connect(serve(0, lastEventId));
    var out := [];
    for i := 0 to |frames|
      invariant Decoded(frames, decode) == out + Decoded(frames[i..], decode)
    {
      assert frames[i..][1..] == frames[i + 1..];
      var event := EventIn(frames[i], decode);
      if event.Some? {
        Regrouped(out, event.value, Decoded(frames[i + 1..], decode));
        out := out + [event.value];
      }
    }
    assert frames[|frames|..] == [] && out + [] == out;
    return if end == Settled then Some(out) else None;
  }

  function Decoded(frames: seq<Frame>, decode: Decoder): seq<RunEvent> {
    if frames == [] then []
    else
      var later := Decoded(frames[1..], decode);
      match EventIn(frames[0], decode)
      case None => later
      case Some(event) => [event] + later
  }

  /** What one pass answers: all that its frames decode to, if it ended as settled. */
  function Drained(serve: Server, decode: Decoder, lastEventId: Option<string>): Option<seq<RunEvent>> {
    var conn := serve(0, lastEventId);
    var piped := Pipe(conn.frames, conn.fate, false);
    if piped.end == Settled then Some(Decoded(piped.frames, decode)) else None
  }
}
