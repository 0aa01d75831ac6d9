/**
 Writers that number their events: each holder of a lease reads the next number once, after
 acquiring the lease, and counts on from there in memory. Over every interleaving of such
 writers, across all takeovers, each log is numbered 0, 1, 2, ... without a gap.
 */
module TaskWriters {
  import opened Wrappers
  import opened TaskModel
  import opened ClaimProofs
  import opened TaskRuns
  import opened TaskHistory
  import opened TaskTokens

  /** The counter a stamper closes over. */
  class EventStamper {
    var next: int

    constructor (firstSeq: Option<int>)
      ensures next == firstSeq.GetOr(0)
    {
      next := firstSeq.GetOr(0);
    }

    method Stamp(id: EventId, body: string) returns (event: Event)
      modifies this
      ensures event == Event(id, old(next), body) && next == old(next) + 1
    {
      event := Event(id, next, body);
      next := next + 1;
    }

    /** A batch stamped one by one is numbered consecutively. */
    method StampBatch(ids: seq<EventId>, body: string) returns (batch: seq<Event>)
      modifies this
      ensures batch == Stamped(old(next), ids, body) && next == old(next) + |ids|
    {
      batch := [];
      var i := 0;
      while i < |ids|
        invariant 0 <= i <= |ids| && next == old(next) + i
        invariant batch == Stamped(old(next), ids[..i], body)
      {
        var event := Stamp(ids[i], body);
        batch := batch + [event];
        i := i + 1;
      }
      assert ids[..i] == ids;
    }
  }

  function Stamped(first: int, ids: seq<EventId>, body: string): (r: seq<Event>)
    ensures |r| == |ids|
  {
    seq(|ids|, i requires 0 <= i < |ids| => Event(ids[i], first + i, body))
  }

  datatype Writer = Writer(id: TaskId, next: int)

  datatype Desk = Desk(w: World, writers: map<Token, Writer>)

  datatype Act =
    | Do(op: Op)
    | Open(token: Token, id: TaskId)
    | Emit(token: Token, ids: seq<EventId>, body: string)

  datatype Turn = Turn(act: Act, now: int)

  /** The world step an act amounts to; opening a writer only reads. */
  function EntryOf(d: Desk, turn: Turn): Option<Entry> {
    match turn.act
    case Do(op) => Some(Entry(op, turn.now))
    case Open(_, _) => None
    case Emit(token, ids, body) =>
      if token in d.writers then
        Some(Entry(Append(d.writers[token].id, Stamped(d.writers[token].next, ids, body), token), turn.now))
      else None
  }

  function NextDesk(cfg: Config, d: Desk, turn: Turn): Desk
    requires Sound(cfg)
  {
    var entry := EntryOf(d, turn);
    var w' := if entry.Some? then Next(cfg, d.w, entry.value) else d.w.(now := turn.now);
    match turn.act
    case Do(_) => Desk(w', d.writers)
    case Open(token, id) => Desk(w', d.writers[token := Writer(id, NextSeq(d.w.s, id))])
    case Emit(token, ids, _) =>
      // The counter has moved on even when the append is refused.
      if token in d.writers
      then Desk(w', d.writers[token := d.writers[token].(next := d.writers[token].next + |ids|)])
      else Desk(w', d.writers)
  }

  ghost predicate HeldFor(w: World, token: Token, id: TaskId) {
    exists i :: 0 <= i < |w.handed| && w.handed[i].token == token && w.handed[i].taskId == id
  }

  /** Events are only written through writers; a writer is opened under a lease that was handed
      out for its task; event ids are fresh; and the world's own promises hold. */
  ghost predicate FairTurn(d: Desk, turn: Turn) {
    && d.w.now <= turn.now
    && match turn.act
       case Do(op) => !op.Append? && Fair(d.w, Entry(op, turn.now))
       case Open(token, id) => HeldFor(d.w, token, id)
       case Emit(token, ids, _) =>
         token in d.writers ==>
           Distinct(ids) && forall i :: 0 <= i < |ids| ==> ids[i] !in LogIds(d.w.s, d.writers[token].id)
  }

  ghost predicate FairTurns(cfg: Config, d: Desk, turns: seq<Turn>)
    requires Sound(cfg)
    decreases turns
  {
    turns == [] || (FairTurn(d, turns[0]) && FairTurns(cfg, NextDesk(cfg, d, turns[0]), turns[1..]))
  }

  function RunDesk(cfg: Config, d: Desk, turns: seq<Turn>): Desk
    requires Sound(cfg)
    decreases turns
  {
    if turns == [] then d else RunDesk(cfg, NextDesk(cfg, d, turns[0]), turns[1..])
  }

  // ---------------------------------------------------------------- invariant

  ghost predicate Dense(log: seq<Event>) {
    forall i :: 0 <= i < |log| ==> log[i].seqNo == i
  }

  ghost predicate DeskInv(d: Desk) {
    && Inv(d.w)
    && (forall id :: id in d.w.s.events ==> Dense(d.w.s.events[id]))
    && (forall token :: token in d.writers ==> WasHanded(d.w, token))
    && (forall token :: token in d.writers ==> InStep(d.w.s, d.w.now, token, d.writers[token]))
  }

  /** A writer that may still write stands exactly at the end of the log. */
  ghost predicate InStep(s: Store, now: int, token: Token, writer: Writer) {
    Current(s, writer.id, token, now) ==> writer.next == |Log(s, writer.id)|
  }

  lemma MoveKeepsLost(s: Store, e: Store, m: LeaseMove, was: int, now: int, id: TaskId, token: Token)
    requires Moves(s, e, m, now) && was <= now && !Current(s, id, token, was)
    requires m.Grant? ==> m.lease.token != token
    ensures !Current(e, id, token, now)
  {
  }

  lemma HandedStays(cfg: Config, w: World, entry: Entry, token: Token)
    requires Sound(cfg) && WasHanded(w, token)
    ensures WasHanded(Next(cfg, w, entry), token)
  {
    var i :| 0 <= i < |w.handed| && w.handed[i].token == token;
    assert Next(cfg, w, entry).handed[i].token == token;
  }

  lemma MintedIsNot(w: World, entry: Entry, m: LeaseMove, token: Token)
    requires Fair(w, entry) && WasHanded(w, token)
    requires m.Grant? ==> Minted(entry.op) == Some(m.lease.token)
    ensures m.Grant? ==> m.lease.token != token
  {
  }

  lemma DoKeeps(cfg: Config, d: Desk, turn: Turn)
    requires Sound(cfg) && DeskInv(d) && FairTurn(d, turn) && turn.act.Do?
    ensures DeskInv(NextDesk(cfg, d, turn))
  {
    var entry := Entry(turn.act.op, turn.now);
    var m := StepKeepsInv(cfg, d.w, entry);
    var w' := Next(cfg, d.w, entry);
    UnacceptedLogs(cfg, d.w, entry);
    forall token | token in d.writers
      ensures WasHanded(w', token) && InStep(w'.s, turn.now, token, d.writers[token])
    {
      HandedStays(cfg, d.w, entry, token);
      MintedIsNot(d.w, entry, m, token);
      var id := d.writers[token].id;
      if Current(w'.s, id, token, turn.now) {
        assert Current(d.w.s, id, token, d.w.now) by {
          if !Current(d.w.s, id, token, d.w.now) {
            MoveKeepsLost(d.w.s, w'.s, m, d.w.now, turn.now, id, token);
          }
        }
        LogStaysWhileLeased(cfg, d.w.s, entry.op, turn.now, id);
      }
    }
  }

  /** No step but an append changes the log of a task that is still leased after it. */
  lemma LogStaysWhileLeased(cfg: Config, s: Store, op: Op, now: int, id: TaskId)
    requires Sound(cfg) && StoreInv(s) && !op.Append?
    requires id in Apply(cfg, s, op, now).leases
    ensures op.Delete? ==> Log(Apply(cfg, s, op, now), id) == Log(s, id)
    ensures Log(Apply(cfg, s, op, now), id) == Log(s, id)
  {
    if !op.Delete? {
      KeepsLogs(cfg, s, op, now);
    }
  }

  lemma {:induction false} StampedAppends(last: int, known: set<EventId>, first: int, ids: seq<EventId>, body: string)
    requires last < first && Distinct(ids) && forall i :: 0 <= i < |ids| ==> ids[i] !in known
    ensures Appendable(last, known, Stamped(first, ids, body))
    decreases ids
  {
    if ids != [] {
      var batch := Stamped(first, ids, body);
      StampedAppends(first, known + {ids[0]}, first + 1, ids[1..], body);
      assert batch[1..] == Stamped(first + 1, ids[1..], body);
    }
  }

  lemma EmitAccepted(d: Desk, token: Token, ids: seq<EventId>, body: string, now: int)
    requires DeskInv(d) && d.w.now <= now && token in d.writers
    requires Distinct(ids) && forall i :: 0 <= i < |ids| ==> ids[i] !in LogIds(d.w.s, d.writers[token].id)
    requires Current(d.w.s, d.writers[token].id, token, now)
    ensures var s, writer := d.w.s, d.writers[token];
            var (e, answer) := AppendEvents(s, writer.id, Stamped(writer.next, ids, body), token, now);
            && answer.Ok? && writer.next == |Log(s, writer.id)|
            && Log(e, writer.id) == Log(s, writer.id) + Stamped(writer.next, ids, body)
            && Dense(Log(e, writer.id))
            && e == s.(events := e.events, eventIds := e.eventIds)
            && (forall x :: x != writer.id ==> Log(e, x) == Log(s, x))
  {
    var s, writer := d.w.s, d.writers[token];
    assert InStep(s, d.w.now, token, writer);
    StampedAppends(LastSeq(Log(s, writer.id)), LogIds(s, writer.id), writer.next, ids, body);
  }

  lemma FairEmitAccepted(d: Desk, turn: Turn)
    requires DeskInv(d) && FairTurn(d, turn) && turn.act.Emit? && turn.act.token in d.writers
    requires Current(d.w.s, d.writers[turn.act.token].id, turn.act.token, turn.now)
    ensures var writer := d.writers[turn.act.token];
            AppendEvents(d.w.s, writer.id, Stamped(writer.next, turn.act.ids, turn.act.body), turn.act.token, turn.now).1.Ok?
  {
    EmitAccepted(d, turn.act.token, turn.act.ids, turn.act.body, turn.now);
  }

  /** The step an emission amounts to, and the logs after it. */
  lemma EmitLogs(cfg: Config, d: Desk, turn: Turn)
    requires Sound(cfg) && DeskInv(d) && FairTurn(d, turn) && turn.act.Emit? && turn.act.token in d.writers
    ensures var d' := NextDesk(cfg, d, turn);
            var writer := d.writers[turn.act.token];
            && (forall id :: id in d'.w.s.events ==> Dense(d'.w.s.events[id]))
            && (forall x :: x != writer.id ==> Log(d'.w.s, x) == Log(d.w.s, x))
            && d'.w.s == d.w.s.(events := d'.w.s.events, eventIds := d'.w.s.eventIds)
            && (Current(d.w.s, writer.id, turn.act.token, turn.now) ==>
                  && writer.next == |Log(d.w.s, writer.id)|
                  && |Log(d'.w.s, writer.id)| == |Log(d.w.s, writer.id)| + |turn.act.ids|)
            && (!Current(d.w.s, writer.id, turn.act.token, turn.now) ==> d'.w.s == d.w.s)
  {
    var token, ids, body := turn.act.token, turn.act.ids, turn.act.body;
    var writer := d.writers[token];
    var s, s' := d.w.s, NextDesk(cfg, d, turn).w.s;
    assert s' == AppendEvents(s, writer.id, Stamped(writer.next, ids, body), token, turn.now).0;
    if Current(s, writer.id, token, turn.now) {
      EmitAccepted(d, token, ids, body, turn.now);
    }
    forall id | id in s'.events ensures Dense(s'.events[id]) {
      assert Log(s', id) == s'.events[id];
      if id != writer.id || s' == s {
        assert Log(s, id) == Log(s', id);
      }
    }
  }

  /** A writer stays in step with its log when some writer, perhaps itself, has emitted `n` events. */
  lemma EmitInStep(s: Store, s': Store, was: int, now: int, token: Token, writer: Writer, n: nat, t: Token, other: Writer)
    requires was <= now && InStep(s, was, t, other) && s' == s.(events := s'.events, eventIds := s'.eventIds)
    requires forall x :: x != writer.id ==> Log(s', x) == Log(s, x)
    requires Current(s, writer.id, token, now) ==> |Log(s', writer.id)| == |Log(s, writer.id)| + n
    requires !Current(s, writer.id, token, now) ==> s' == s
    requires t == token ==> other == writer
    ensures InStep(s', now, t, if t == token then other.(next := other.next + n) else other)
  {
  }

  lemma EmitKeepsWriters(cfg: Config, d: Desk, turn: Turn, t: Token)
    requires Sound(cfg) && DeskInv(d) && FairTurn(d, turn) && turn.act.Emit? && turn.act.token in d.writers && t in d.writers
    ensures var d' := NextDesk(cfg, d, turn);
            t in d'.writers && WasHanded(d'.w, t) && InStep(d'.w.s, turn.now, t, d'.writers[t])
  {
    var writer := d.writers[turn.act.token];
    var entry := Entry(Append(writer.id, Stamped(writer.next, turn.act.ids, turn.act.body), turn.act.token), turn.now);
    EmitLogs(cfg, d, turn);
    HandedStays(cfg, d.w, entry, t);
    EmitInStep(d.w.s, NextDesk(cfg, d, turn).w.s, d.w.now, turn.now, turn.act.token, writer, |turn.act.ids|, t, d.writers[t]);
  }

  lemma EmitKeeps(cfg: Config, d: Desk, turn: Turn)
    requires Sound(cfg) && DeskInv(d) && FairTurn(d, turn) && turn.act.Emit? && turn.act.token in d.writers
    ensures DeskInv(NextDesk(cfg, d, turn))
  {
    var writer := d.writers[turn.act.token];
    var entry := Entry(Append(writer.id, Stamped(writer.next, turn.act.ids, turn.act.body), turn.act.token), turn.now);
    var m := StepKeepsInv(cfg, d.w, entry);
    var d' := NextDesk(cfg, d, turn);
    EmitLogs(cfg, d, turn);
    forall t | t in d'.writers ensures WasHanded(d'.w, t) && InStep(d'.w.s, turn.now, t, d'.writers[t]) {
      EmitKeepsWriters(cfg, d, turn, t);
    }
  }

  lemma OpenKeeps(cfg: Config, d: Desk, turn: Turn)
    requires Sound(cfg) && DeskInv(d) && FairTurn(d, turn) && turn.act.Open?
    ensures DeskInv(NextDesk(cfg, d, turn))
  {
    var d' := NextDesk(cfg, d, turn);
    var token, id := turn.act.token, turn.act.id;
    assert d'.w == d.w.(now := turn.now);
    assert NextSeq(d.w.s, id) == |Log(d.w.s, id)| by {
      if id in d.w.s.events { assert Dense(d.w.s.events[id]); }
    }
    KeepsHistoriesLater(d.w, turn.now);
    forall t | t in d'.writers ensures WasHanded(d'.w, t) && InStep(d'.w.s, turn.now, t, d'.writers[t]) {
      if t != token {
        assert WasHanded(d.w, t) && InStep(d.w.s, d.w.now, t, d.writers[t]);
      }
      assert exists i :: 0 <= i < |d.w.handed| && d.w.handed[i].token == t;
    }
  }

  lemma KeepsHistoriesLater(w: World, now: int)
    requires Inv(w)
    ensures Inv(w.(now := now))
  {
    var w' := w.(now := now);
    forall id | id in w'.tags ensures Tagged(w', id) {
      assert Tagged(w, id);
      forall i | 0 <= i < |w.tags[id]| ensures FromLease(w', id, w'.tags[id][i]) {
        KeepsFromLease(w, w', id, w.tags[id][i]);
      }
    }
  }

  lemma {:induction false} DeskRunKeeps(cfg: Config, d: Desk, turns: seq<Turn>)
    requires Sound(cfg) && DeskInv(d) && FairTurns(cfg, d, turns)
    ensures DeskInv(RunDesk(cfg, d, turns))
    decreases turns
  {
    if turns != [] {
      match turns[0].act {
        case Do(_) => DoKeeps(cfg, d, turns[0]);
        case Open(_, _) => OpenKeeps(cfg, d, turns[0]);
        case Emit(token, _, _) =>
          if token in d.writers {
            EmitKeeps(cfg, d, turns[0]);
          } else {
            LaterKeeps(d, turns[0].now);
          }
      }
      DeskRunKeeps(cfg, NextDesk(cfg, d, turns[0]), turns[1..]);
    }
  }

  lemma LaterKeeps(d: Desk, now: int)
    requires DeskInv(d) && d.w.now <= now
    ensures DeskInv(Desk(d.w.(now := now), d.writers))
  {
    KeepsHistoriesLater(d.w, now);
    forall t | t in d.writers ensures WasHanded(d.w.(now := now), t) && InStep(d.w.s, now, t, d.writers[t]) {
      assert WasHanded(d.w, t) && InStep(d.w.s, d.w.now, t, d.writers[t]);
    }
  }

  /** Across every takeover, the numbers of each log are exactly 0..n-1, and a writer whose
      lease is current is never refused for its numbering. */
  lemma LogsAreDense(cfg: Config, turns: seq<Turn>)
    requires Sound(cfg) && FairTurns(cfg, Desk(FRESH_WORLD, map[]), turns)
    ensures var d := RunDesk(cfg, Desk(FRESH_WORLD, map[]), turns);
            && (forall id, i :: id in d.w.s.events && 0 <= i < |d.w.s.events[id]| ==> d.w.s.events[id][i].seqNo == i)
            && (forall token, ids, body, now ::
                  FairTurn(d, Turn(Emit(token, ids, body), now)) && token in d.writers
                  && Current(d.w.s, d.writers[token].id, token, now) ==>
                    AppendEvents(d.w.s, d.writers[token].id, Stamped(d.writers[token].next, ids, body), token, now).1.Ok?)
  {
    var start := Desk(FRESH_WORLD, map[]);
    DeskRunKeeps(cfg, start, turns);
    var d := RunDesk(cfg, start, turns);
    forall id | id in d.w.s.events ensures Dense(d.w.s.events[id]) {}
    forall token, ids, body, now |
      FairTurn(d, Turn(Emit(token, ids, body), now)) && token in d.writers
      && Current(d.w.s, d.writers[token].id, token, now)
      ensures AppendEvents(d.w.s, d.writers[token].id, Stamped(d.writers[token].next, ids, body), token, now).1.Ok?
    {
      FairEmitAccepted(d, Turn(Emit(token, ids, body), now));
    }
  }
}
