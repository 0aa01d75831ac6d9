/**
 The server's side of a run's stream: finding where a client resumes by walking the log in pages,
 and what a client that iterates against such a server receives of the log in the task store.
 */
module StreamServer {
  import opened Wrappers
  import opened SseParser
  import opened SseFrames
  import opened RunStream
  import opened StreamDelivery
  import opened StreamWire
  import opened TaskModel
  import TaskRuns
  import TaskHistory
  import TaskWriters
  import ToolIdentity

  /** A stored event as the client knows it. */
  function Seen(event: TaskModel.Event): RunEvent {
    RunEvent(Some(event.id), Some(event.seqNo), event.body)
  }

  function SeenLog(log: seq<TaskModel.Event>): (r: seq<RunEvent>)
    ensures |r| == |log| && forall i :: 0 <= i < |log| ==> r[i] == Seen(log[i])
  {
    seq(|log|, i requires 0 <= i < |log| => Seen(log[i]))
  }

  /** A blank cursor is none. */
  function Given(lastEventId: Option<string>): Option<string> {
    if lastEventId.None? || ToolIdentity.Trim(lastEventId.value) == "" then None else lastEventId
  }

  // -------------------------------------------------------------------- pages

  /** One read of at most `limit` events from seq `cursor` on. Such a page is sorted already. */
  function ReadAfter(s: Store, id: TaskId, cursor: int, limit: nat): seq<TaskModel.Event> {
    ListEvents(s, id, if cursor <= 0 then None else Some(cursor - 1), Some(limit))
  }

  lemma PageIs(s: Store, id: TaskId, cursor: nat, limit: nat)
    requires TaskWriters.Dense(Log(s, id)) && cursor <= |Log(s, id)|
    ensures ReadAfter(s, id, cursor, limit)
         == Log(s, id)[cursor..if cursor + limit < |Log(s, id)| then cursor + limit else |Log(s, id)|]
  {
    var lo := TaskHistory.ListingOf(s, id, if cursor <= 0 then None else Some(cursor - 1), Some(limit));
    assert cursor < |Log(s, id)| ==> Log(s, id)[cursor].seqNo == cursor;
    assert lo < |Log(s, id)| ==> Log(s, id)[lo].seqNo == lo;
  }

  /** What a reader sees of a dense log. */
  method ReadPage(s: Store, id: TaskId, cursor: nat, limit: nat) returns (batch: seq<TaskModel.Event>)
    requires TaskWriters.Dense(Log(s, id)) && cursor <= |Log(s, id)|
    ensures |batch| == if cursor + limit < |Log(s, id)| then limit else |Log(s, id)| - cursor
    ensures forall i :: 0 <= i < |batch| ==> batch[i] == Log(s, id)[cursor + i] && batch[i].seqNo == cursor + i
  {
    PageIs(s, id, cursor, limit);
    batch := ReadAfter(s, id, cursor, limit);
  }

  /** No event before `n` has the id. */
  predicate NotBefore(log: seq<TaskModel.Event>, id: string, n: nat) {
    n <= |log| && forall k :: 0 <= k < n ==> log[k].id != id
  }

  lemma {:induction false} NextAfterIs(log: seq<RunEvent>, id: Option<string>)
    requires IsLog(log)
    ensures forall k :: 0 <= k < |log| && log[k].eventId == id ==> NextAfter(log, id) == k + 1
    ensures (forall k :: 0 <= k < |log| ==> log[k].eventId != id) ==> NextAfter(log, id) == 0
  {
    if log != [] && id != None && log[|log| - 1].eventId != id {
      var front := log[..|log| - 1];
      NextAfterIs(front, id);
      assert forall k :: 0 <= k < |front| ==> front[k] == log[k];
    }
  }

  /** There is a cursor, and not of blanks alone. */
  predicate Names(lastEventId: Option<string>) {
    lastEventId.Some? && exists i :: 0 <= i < |lastEventId.value| && !ToolIdentity.Space(lastEventId.value[i])
  }

  predicate Unknown(log: seq<TaskModel.Event>, id: string) {
    forall k :: 0 <= k < |log| ==> log[k].id != id
  }

  lemma CursorIs(lastEventId: Option<string>)
    ensures Names(lastEventId) <==> Given(lastEventId).Some?
    ensures Names(lastEventId) <==> lastEventId.Some? && ToolIdentity.Trim(lastEventId.value) != ""
  {
    if lastEventId.Some? {
      ToolIdentity.BlankIs(lastEventId.value);
    }
  }

  /** Where the client's cursor resumes, or the beginning if it names no event of this log, which is
      then announced. */
  method ResolveStreamStart(s: Store, id: TaskId, lastEventId: Option<string>, batchSize: nat)
    returns (start: nat, resync: bool)
    requires batchSize >= 1 && TaskWriters.Dense(Log(s, id)) && IsLog(SeenLog(Log(s, id)))
    ensures start == NextAfter(SeenLog(Log(s, id)), Given(lastEventId))
    ensures resync <==> Given(lastEventId).Some? && start == 0
    ensures !Names(lastEventId) ==> start == 0 && !resync
    ensures Names(lastEventId) && Unknown(Log(s, id), lastEventId.value) ==> start == 0 && resync
    ensures forall k :: 0 <= k < |Log(s, id)| && Names(lastEventId) && Log(s, id)[k].id == lastEventId.value ==>
              start == k + 1 && !resync
  {
    CursorIs(lastEventId);
    NextAfterIs(SeenLog(Log(s, id)), lastEventId);
    if lastEventId.None? || ToolIdentity.Trim(lastEventId.value) == "" {
      return 0, false;
    }
    ghost var log := Log(s, id);
    var wanted, cursor := lastEventId.value, 0;
    while true
      invariant NotBefore(log, wanted, cursor)
      decreases |log| - cursor
    {
      var batch := ReadPage(s, id, cursor, batchSize);
      ghost var from := cursor;
      for i := 0 to |batch|
        invariant cursor == from + i && NotBefore(log, wanted, cursor)
      {
        assert batch[i] == log[from + i];
        if batch[i].id == wanted {
          return batch[i].seqNo + 1, false;
        }
        cursor := if cursor < batch[i].seqNo + 1 then batch[i].seqNo + 1 else cursor;
      }
      if |batch| == 0 || |batch| < batchSize {
        return 0, true;
      }
    }
  }

  /** No event of the stretch but the last one ends a pass of the run. */
  predicate OnePass(events: seq<TaskModel.Event>, terminal: TaskModel.Event -> bool) {
    forall k :: 0 <= k < |events| - 1 ==> !terminal(events[k])
  }

  /** One page, written up to the first event that ends a pass; `cursor` is the seq written next. */
  method WritePage(batch: seq<TaskModel.Event>, cursor0: nat, terminal: TaskModel.Event -> bool)
    returns (n: nat, cursor: nat, stopped: bool)
    requires forall i :: 0 <= i < |batch| ==> batch[i].seqNo == cursor0 + i
    ensures n <= |batch| && cursor == cursor0 + n && OnePass(batch[..n], terminal)
    ensures stopped <==> n > 0 && terminal(batch[n - 1])
    ensures !stopped ==> n == |batch|
  {
    n, cursor := 0, cursor0;
    while n < |batch|
      invariant n <= |batch| && cursor == cursor0 + n
      invariant forall k :: 0 <= k < n ==> !terminal(batch[k])
    {
      var event := batch[n];
      n := n + 1;
      if event.seqNo >= cursor {
        cursor := event.seqNo + 1;
        if terminal(event) {
          return n, cursor, true;
        }
      }
    }
    return n, cursor, false;
  }

  lemma PassGoesOn(written: seq<TaskModel.Event>, more: seq<TaskModel.Event>, terminal: TaskModel.Event -> bool)
    requires OnePass(written, terminal) && OnePass(more, terminal)
    requires written != [] ==> !terminal(written[|written| - 1])
    ensures OnePass(written + more, terminal)
  {
  }

  /** What the log holds from `cursor0` on, a page at a time, up to the first event that ends a pass, if
      there is one: then it stops there, and otherwise at the end of the log. */
  method Drain(s: Store, id: TaskId, cursor0: nat, batchLimit: nat, terminal: TaskModel.Event -> bool)
    returns (written: seq<TaskModel.Event>, stopped: bool)
    requires batchLimit >= 1 && TaskWriters.Dense(Log(s, id)) && cursor0 <= |Log(s, id)|
    ensures cursor0 + |written| <= |Log(s, id)| && written == Log(s, id)[cursor0..cursor0 + |written|]
    ensures OnePass(written, terminal)
    ensures stopped <==> written != [] && terminal(written[|written| - 1])
    ensures !stopped ==> cursor0 + |written| == |Log(s, id)|
  {
    written, stopped := [], false;
    var cursor := cursor0;
    ghost var log := Log(s, id);
    while true
      invariant cursor0 <= cursor <= |log| && written == log[cursor0..cursor] && OnePass(written, terminal)
      invariant written != [] ==> !terminal(written[|written| - 1])
      decreases |log| - cursor
    {
      var batch := ReadPage(s, id, cursor, batchLimit);
      var n, next, ended := WritePage(batch, cursor, terminal);
      PassGoesOn(written, batch[..n], terminal);
      assert written + batch[..n] == log[cursor0..next];
      assert n > 0 ==> (written + batch[..n])[|written| + n - 1] == batch[n - 1];
      written, cursor := written + batch[..n], next;
      if ended {
        return written, true;
      }
      if |batch| == 0 || |batch| < batchLimit {
        return written, false;
      }
    }
  }

  /** The last read of a run that is over: a log of several passes has more than one event to stop at, so
      it goes on until it stops at none. By then all of the log is written. */
  method WalkOut(s: Store, id: TaskId, cursor0: nat, batchLimit: nat, terminal: TaskModel.Event -> bool)
    returns (written: seq<TaskModel.Event>)
    requires batchLimit >= 1 && TaskWriters.Dense(Log(s, id)) && cursor0 <= |Log(s, id)|
    ensures written == Log(s, id)[cursor0..]
  {
    written := [];
    while true
      invariant cursor0 + |written| <= |Log(s, id)| && written == Log(s, id)[cursor0..cursor0 + |written|]
      decreases |Log(s, id)| - |written|
    {
      var more, stopped := Drain(s, id, cursor0 + |written|, batchLimit, terminal);
      written := written + more;
      if !stopped {
        return;
      }
    }
  }

  // ------------------------------------------------------------- connections

  /** One connection of the server: how much of the log there was when it looked for the cursor and
      when it last wrote, what it wrote, and what of that arrived, in which pieces. */
  datatype Reply = Reply(scanned: nat, end: nat, hint: nat, settled: bool, blocks: seq<Block>, chunks: seq<string>, fate: Fate)

  /** The log was `r.scanned` events long at the scan. The events are printed from there on, comments
      between them, and the marker only once the log is at its end. */
  predicate Prints(r: Reply, log: seq<RunEvent>, cursor: Option<string>, enc: Encoder, limit: nat) {
    && r.scanned <= r.end <= |log| && (r.settled ==> r.end == |log|)
    && var start := NextAfter(log[..r.scanned], Given(cursor));
    && start <= r.scanned
    && FramesIn(r.blocks) == Body(log, start, r.end, r.hint, Given(cursor).Some? && start == 0, r.settled, enc)
    && (forall b :: b in r.blocks ==> Writable(b, limit))
    && Concat(r.chunks) <= Document(r.blocks, [], "")
  }

  /** What arrives of a reply. */
  function Arriving(r: Reply, limit: nat): Connection {
    Connection(Chunked(NOTHING, "", r.chunks, limit).0, r.fate)
  }

  type Replies = (nat, Option<string>) -> Reply

  ghost predicate Serves(serve: Server, replies: Replies, log: seq<RunEvent>, enc: Encoder, limit: nat) {
    forall n: nat, cursor ::
      Prints(replies(n, cursor), log, cursor, enc, limit) && serve(n, cursor) == Arriving(replies(n, cursor), limit)
  }

  /** Every scan saw the whole log, and no event id is blank. */
  ghost predicate UpToDate(replies: Replies, log: seq<RunEvent>) {
    && (forall n: nat, cursor {:trigger replies(n, cursor)} :: replies(n, cursor).scanned == |log|)
    && forall i :: 0 <= i < |log| ==> Given(log[i].eventId) == log[i].eventId
  }

  lemma PrefixIsLog(log: seq<RunEvent>, n: nat)
    requires IsLog(log) && n <= |log|
    ensures IsLog(log[..n])
  {
  }

  /** A scan of a shorter log finds the cursor where it is, or not at all. */
  lemma ScannedStart(log: seq<RunEvent>, n: nat, cursor: Option<string>)
    requires IsLog(log) && n <= |log|
    ensures NextAfter(log[..n], Given(cursor)) <= NextAfter(log, cursor)
  {
    PrefixIsLog(log, n);
    NextAfterIs(log[..n], Given(cursor));
    NextAfterIs(log, cursor);
    if k :| 0 <= k < n && log[..n][k].eventId == Given(cursor) {
      assert log[k].eventId == Given(cursor);
    }
  }

  lemma ExactStart(log: seq<RunEvent>, cursor: Option<string>)
    requires IsLog(log) && forall i :: 0 <= i < |log| ==> Given(log[i].eventId) == log[i].eventId
    ensures NextAfter(log, Given(cursor)) == NextAfter(log, cursor)
  {
    NextAfterIs(log, Given(cursor));
    NextAfterIs(log, cursor);
  }

  lemma ReplyIsServed(r: Reply, log: seq<RunEvent>, cursor: Option<string>, enc: Encoder, decode: Decoder,
                      limit: nat, exact: bool) returns (start: nat)
    requires IsLog(log) && forall i :: 0 <= i < |log| ==> Faithful(log[i], enc, decode)
    requires Prints(r, log, cursor, enc, limit)
    requires exact ==> r.scanned == |log| && forall i :: 0 <= i < |log| ==> Given(log[i].eventId) == log[i].eventId
    ensures MayStart(log, cursor, exact, start) && ServesFrom(Arriving(r, limit), decode, log, start)
  {
    start := NextAfter(log[..r.scanned], Given(cursor));
    ScannedStart(log, r.scanned, cursor);
    if exact {
      assert log[..r.scanned] == log;
      ExactStart(log, cursor);
    }
    WrittenIsServed(log, start, r.end, r.hint, Given(cursor).Some? && start == 0, r.settled, enc, decode,
                    r.blocks, r.chunks, r.fate, limit);
  }

  /** A server that scans for the cursor and prints the log from there on, over connections that break
      anywhere, is what the client's delivery asks for. */
  lemma ScanningServerIsHonest(serve: Server, replies: Replies, log: seq<RunEvent>, enc: Encoder, decode: Decoder,
                               limit: nat, exact: bool)
    requires IsLog(log) && forall i :: 0 <= i < |log| ==> Faithful(log[i], enc, decode)
    requires Serves(serve, replies, log, enc, limit) && (exact ==> UpToDate(replies, log))
    ensures Honest(serve, decode, log, exact)
  {
    forall n: nat, cursor: Option<string> ensures Answers(serve(n, cursor), decode, log, cursor, exact) {
      assert Prints(replies(n, cursor), log, cursor, enc, limit) && serve(n, cursor) == Arriving(replies(n, cursor), limit);
      var start := ReplyIsServed(replies(n, cursor), log, cursor, enc, decode, limit, exact);
    }
  }

  // ------------------------------------------------- from the store to the client

  /** However many writers took over from each other, a task's log is one a client can resume. */
  lemma StoredLogIsLog(cfg: TaskRuns.Config, turns: seq<TaskWriters.Turn>, id: TaskId)
    requires TaskRuns.Sound(cfg) && TaskWriters.FairTurns(cfg, TaskWriters.Desk(TaskHistory.FRESH_WORLD, map[]), turns)
    ensures var s := TaskWriters.RunDesk(cfg, TaskWriters.Desk(TaskHistory.FRESH_WORLD, map[]), turns).w.s;
            TaskWriters.Dense(Log(s, id)) && IsLog(SeenLog(Log(s, id)))
  {
    TaskWriters.DeskRunKeeps(cfg, TaskWriters.Desk(TaskHistory.FRESH_WORLD, map[]), turns);
  }

  /**
   From the store to the client: the log that any writers left in the task store, served by scanning
   and printing over connections that break anywhere, arrives as one stretch of it, each event once
   and in order, with nothing left out past the client's cursor, and up to its end if the iteration
   returns.
   */
  lemma StoreReachesClient(cfg: TaskRuns.Config, turns: seq<TaskWriters.Turn>, id: TaskId,
                           serve: Server, replies: Replies, enc: Encoder, decode: Decoder, limit: nat,
                           options: StreamOptions)
    requires TaskRuns.Sound(cfg) && TaskWriters.FairTurns(cfg, TaskWriters.Desk(TaskHistory.FRESH_WORLD, map[]), turns)
    requires var log := SeenLog(Log(TaskWriters.RunDesk(cfg, TaskWriters.Desk(TaskHistory.FRESH_WORLD, map[]), turns).w.s, id));
             Serves(serve, replies, log, enc, limit) && forall i :: 0 <= i < |log| ==> Faithful(log[i], enc, decode)
    ensures var log := SeenLog(Log(TaskWriters.RunDesk(cfg, TaskWriters.Desk(TaskHistory.FRESH_WORLD, map[]), turns).w.s, id));
            var t := Follow(Fresh(options), 0, serve, decode, LimitsOf(options));
            Stretch(Flat(t.shares), log, NextAfter(log, options.lastEventId), false, t.outcome == Finished)
  {
    var log := SeenLog(Log(TaskWriters.RunDesk(cfg, TaskWriters.Desk(TaskHistory.FRESH_WORLD, map[]), turns).w.s, id));
    StoredLogIsLog(cfg, turns, id);
    ScanningServerIsHonest(serve, replies, log, enc, decode, limit, false);
    DeliversTheLog(Fresh(options), 0, serve, decode, LimitsOf(options), log, false);
  }
}
