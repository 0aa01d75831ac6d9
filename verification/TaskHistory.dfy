/**
 Histories of runs: fencing tokens, the leases handed out, and the log of each task tagged
 with the lease every event was accepted under.
 */
module TaskHistory {
  import opened Wrappers
  import opened TaskModel
  import opened TaskClaim
  import opened ClaimProofs
  import opened TaskFrames
  import opened TaskRuns

  // ---------------------------------------------------------------- the store

  ghost predicate Rising(log: seq<Event>) {
    forall i, j :: 0 <= i < j < |log| ==> log[i].seqNo < log[j].seqNo
  }

  ghost predicate IdsApart(log: seq<Event>) {
    forall i, j :: 0 <= i < j < |log| ==> log[i].id != log[j].id
  }

  /** The index of event ids is the set of ids in the log, each used once, and the log's numbers rise. */
  ghost predicate Indexed(log: seq<Event>, ids: set<EventId>) {
    ids == IdsOf(log) && Rising(log) && IdsApart(log)
  }

  ghost predicate LogsIndexed(s: Store) {
    && s.events.Keys == s.eventIds.Keys
    && forall id :: id in s.events ==> Indexed(s.events[id], s.eventIds[id])
  }

  ghost predicate StoreInv(s: Store) {
    WellOrdered(s) && LeasesKeyed(s) && LogsIndexed(s)
  }

  lemma {:induction false} WithoutKeepsDistinct(order: seq<TaskId>, dead: set<TaskId>)
    requires Distinct(order)
    ensures Distinct(Without(order, dead))
  {
    if order != [] {
      WithoutKeepsDistinct(order[1..], dead);
      assert order[0] !in order[1..];
    }
  }

  lemma KeepsOrder(cfg: Config, s: Store, op: Op, now: int)
    requires Sound(cfg) && WellOrdered(s)
    ensures WellOrdered(Apply(cfg, s, op, now))
  {
    if op.Delete? {
      WithoutKeepsDistinct(s.order, InScope(s, op.scope));
    } else if !op.Create? && !op.Append? {
      StepFrame(cfg, s, op, now);
    }
  }

  lemma KeepsLeasesKeyed(s: Store, e: Store, m: LeaseMove, now: int)
    requires LeasesKeyed(s) && Moves(s, e, m, now)
    requires m.Grant? ==> forall id :: id in s.leases ==> s.leases[id].token != m.lease.token
    requires forall a, b :: a in s.leases && b in s.leases && s.leases[a].token == s.leases[b].token ==> a == b
    ensures LeasesKeyed(e)
  {
  }

  lemma {:induction false} AppendableRises(log: seq<Event>, ids: set<EventId>, batch: seq<Event>)
    requires Rising(log) && Appendable(LastSeq(log), ids, batch)
    ensures Rising(log + batch)
    ensures IdsApart(batch) && forall i :: 0 <= i < |batch| ==> batch[i].id !in ids
    decreases batch
  {
    if batch == [] {
      assert log + batch == log;
    } else {
      var longer := log + [batch[0]];
      assert Rising(longer);
      AppendableRises(longer, ids + {batch[0].id}, batch[1..]);
      assert log + batch == longer + batch[1..];
      assert forall i :: 0 < i < |batch| ==> batch[i] == batch[1..][i - 1];
    }
  }

  lemma IdsOfConcat(a: seq<Event>, b: seq<Event>)
    ensures IdsOf(a + b) == IdsOf(a) + IdsOf(b)
  {
    forall x ensures x in IdsOf(a + b) <==> x in IdsOf(a) + IdsOf(b) {
      if x in IdsOf(a) {
        var i :| 0 <= i < |a| && a[i].id == x;
        assert (a + b)[i].id == x;
      }
      if x in IdsOf(b) {
        var i :| 0 <= i < |b| && b[i].id == x;
        assert (a + b)[|a| + i].id == x;
      }
    }
  }

  lemma IdsApartConcat(log: seq<Event>, batch: seq<Event>, ids: set<EventId>)
    requires IdsApart(log) && IdsApart(batch) && ids == IdsOf(log)
    requires forall i :: 0 <= i < |batch| ==> batch[i].id !in ids
    ensures IdsApart(log + batch)
  {
    assert forall i :: 0 <= i < |log| ==> log[i].id in ids;
  }

  lemma AppendKeepsLogs(s: Store, id: TaskId, batch: seq<Event>, token: Token, now: int)
    requires LogsIndexed(s)
    ensures LogsIndexed(AppendEvents(s, id, batch, token, now).0)
  {
    var e := AppendEvents(s, id, batch, token, now).0;
    if e != s {
      AppendableRises(Log(s, id), LogIds(s, id), batch);
      IdsOfConcat(Log(s, id), batch);
      assert Log(s, id) == [] ==> IdsOf(Log(s, id)) == {};
      IdsApartConcat(Log(s, id), batch, LogIds(s, id));
    }
  }

  lemma KeepsLogs(cfg: Config, s: Store, op: Op, now: int)
    requires Sound(cfg) && WellOrdered(s) && LogsIndexed(s)
    ensures LogsIndexed(Apply(cfg, s, op, now))
    ensures !op.Delete? && !op.Append? ==> Apply(cfg, s, op, now).events == s.events
  {
    if op.Append? {
      AppendKeepsLogs(s, op.id, op.batch, op.token, now);
    } else if !op.Delete? && !op.Create? {
      StepFrame(cfg, s, op, now);
    }
  }

  // ---------------------------------------------------------------- the world

  /** The lease an event was accepted under. */
  datatype Tag = Tag(fencing: nat, attemptId: AttemptId)

  datatype World = World(s: Store, now: int, handed: seq<Lease>, tags: map<TaskId, seq<Tag>>)

  datatype Entry = Entry(op: Op, now: int)

  function TagsOf(w: World, id: TaskId): seq<Tag> {
    if id in w.tags then w.tags[id] else []
  }

  /** The append wrote its batch. */
  predicate Accepted(s: Store, op: Op, now: int) {
    op.Append? && op.batch != [] && AppendEvents(s, op.id, op.batch, op.token, now).1.Ok?
  }

  function NextTags(w: World, op: Op, now: int): map<TaskId, seq<Tag>> {
    if op.Delete? && BusyIn(w.s, op.scope) == {} then w.tags - InScope(w.s, op.scope)
    else if Accepted(w.s, op, now) then
      var lease := w.s.leases[op.id];
      w.tags[op.id := TagsOf(w, op.id) + seq(|op.batch|, _ => Tag(lease.fencing, lease.attemptId))]
    else w.tags
  }

  function Next(cfg: Config, w: World, entry: Entry): World
    requires Sound(cfg)
  {
    var handed := Handed(cfg, w.s, entry.op, entry.now);
    World(Apply(cfg, w.s, entry.op, entry.now), entry.now,
          if handed.Some? then w.handed + [handed.value] else w.handed,
          NextTags(w, entry.op, entry.now))
  }

  /** What the environment promises of a step: the clock does not go back, and a minted lease
      token (a random UUID) was never handed out before. */
  ghost predicate Fair(w: World, entry: Entry) {
    && w.now <= entry.now
    && (Minted(entry.op).Some? ==> forall i :: 0 <= i < |w.handed| ==> w.handed[i].token != Minted(entry.op).value)
  }

  ghost predicate FairRun(cfg: Config, w: World, run: seq<Entry>)
    requires Sound(cfg)
    decreases run
  {
    run == [] || (Fair(w, run[0]) && FairRun(cfg, Next(cfg, w, run[0]), run[1..]))
  }

  function Run(cfg: Config, w: World, run: seq<Entry>): World
    requires Sound(cfg)
    decreases run
  {
    if run == [] then w else Run(cfg, Next(cfg, w, run[0]), run[1..])
  }

  const FRESH_WORLD := World(EMPTY, 0, [], map[])

  // -------------------------------------------------------------- leases, ever

  /** The same lease, up to renewals. */
  ghost predicate SameLease(a: Lease, b: Lease) {
    a.(expiresAt := 0) == b.(expiresAt := 0)
  }

  /** Fencing tokens were handed out strictly rising and never twice, lease tokens never
      twice, and every present lease is one that was handed out. */
  ghost predicate LeaseHistory(w: World) {
    && (forall i, j :: 0 <= i < j < |w.handed| ==>
          w.handed[i].fencing < w.handed[j].fencing && w.handed[i].token != w.handed[j].token)
    && (forall i :: 0 <= i < |w.handed| ==> w.handed[i].fencing <= w.s.fencing)
    && (forall id :: id in w.s.leases ==> exists i :: 0 <= i < |w.handed| && SameLease(w.handed[i], w.s.leases[id]))
  }

  lemma TokensIdentifyTasks(w: World, a: TaskId, b: TaskId)
    requires LeaseHistory(w) && LeasesKeyed(w.s)
    requires a in w.s.leases && b in w.s.leases && w.s.leases[a].token == w.s.leases[b].token
    ensures a == b
  {
    var i :| 0 <= i < |w.handed| && SameLease(w.handed[i], w.s.leases[a]);
    var j :| 0 <= j < |w.handed| && SameLease(w.handed[j], w.s.leases[b]);
    assert w.handed[i].token == w.handed[j].token;
    assert i == j;
  }

  lemma KeepsLeaseHistory(cfg: Config, w: World, entry: Entry, m: LeaseMove)
    requires Sound(cfg) && LeaseHistory(w) && Fair(w, entry)
    requires Moves(w.s, Next(cfg, w, entry).s, m, entry.now)
    requires Handed(cfg, w.s, entry.op, entry.now) == if m.Grant? then Some(m.lease) else None
    requires m.Grant? ==> Minted(entry.op) == Some(m.lease.token)
    ensures LeaseHistory(Next(cfg, w, entry))
  {
    var w' := Next(cfg, w, entry);
    forall id | id in w'.s.leases
      ensures exists i :: 0 <= i < |w'.handed| && SameLease(w'.handed[i], w'.s.leases[id])
    {
      if m.Grant? && id == m.lease.taskId {
        assert SameLease(w'.handed[|w.handed|], w'.s.leases[id]);
      } else {
        var i :| 0 <= i < |w.handed| && SameLease(w.handed[i], w.s.leases[id]);
        assert SameLease(w'.handed[i], w'.s.leases[id]);
      }
    }
  }

  // ------------------------------------------------------------------- the log

  ghost predicate FromLease(w: World, id: TaskId, tag: Tag) {
    exists i :: 0 <= i < |w.handed| && w.handed[i].taskId == id
                && tag == Tag(w.handed[i].fencing, w.handed[i].attemptId)
  }

  /** Every event of the log was accepted under a lease handed out for its task, and along the
      log the fencing tokens never fall; none is above the token of the task's present lease. */
  ghost predicate Tagged(w: World, id: TaskId)
    requires id in w.tags && id in w.s.events
  {
    var tags := w.tags[id];
    && |tags| == |w.s.events[id]|
    && (forall i, j :: 0 <= i <= j < |tags| ==> tags[i].fencing <= tags[j].fencing)
    && (forall i :: 0 <= i < |tags| ==> FromLease(w, id, tags[i]))
    && (id in w.s.leases ==> forall i :: 0 <= i < |tags| ==> tags[i].fencing <= w.s.leases[id].fencing)
  }

  ghost predicate TagHistory(w: World) {
    w.tags.Keys == w.s.events.Keys && forall id :: id in w.tags ==> Tagged(w, id)
  }

  lemma KeepsFromLease(w: World, w': World, id: TaskId, tag: Tag)
    requires w.handed <= w'.handed && FromLease(w, id, tag)
    ensures FromLease(w', id, tag)
  {
    var i :| 0 <= i < |w.handed| && w.handed[i].taskId == id
             && tag == Tag(w.handed[i].fencing, w.handed[i].attemptId);
    assert w'.handed[i] == w.handed[i];
  }

  /** A present lease is a handed-out one, so an event accepted under it is tagged from it. */
  lemma PresentLeaseTags(w: World, id: TaskId)
    requires LeaseHistory(w) && LeasesKeyed(w.s) && id in w.s.leases
    ensures FromLease(w, id, Tag(w.s.leases[id].fencing, w.s.leases[id].attemptId))
  {
    var i :| 0 <= i < |w.handed| && SameLease(w.handed[i], w.s.leases[id]);
    assert w.handed[i].taskId == id;
  }

  lemma AppendTags(w: World, w': World, id: TaskId, batch: seq<Event>)
    requires LeaseHistory(w) && LeasesKeyed(w.s) && TagHistory(w) && id in w.s.leases
    requires w'.s.leases == w.s.leases && w'.handed == w.handed
    requires id in w'.tags && id in w'.s.events && w'.s.events[id] == Log(w.s, id) + batch
    requires w'.tags[id] == TagsOf(w, id) + seq(|batch|, _ => Tag(w.s.leases[id].fencing, w.s.leases[id].attemptId))
    ensures Tagged(w', id)
  {
    PresentLeaseTags(w, id);
    assert |TagsOf(w, id)| == |Log(w.s, id)|;
    var mine := Tag(w.s.leases[id].fencing, w.s.leases[id].attemptId);
    forall i | 0 <= i < |w'.tags[id]| ensures FromLease(w', id, w'.tags[id][i]) {
      KeepsFromLease(w, w', id, if i < |TagsOf(w, id)| then TagsOf(w, id)[i] else mine);
    }
  }

  /** A step that leaves the log of a task alone leaves its tags below the present lease: a
      lease granted now carries a token above every token handed out before. */
  lemma QuietTags(w: World, w': World, m: LeaseMove, now: int, id: TaskId)
    requires LeaseHistory(w) && Moves(w.s, w'.s, m, now) && w.handed <= w'.handed
    requires id in w.tags && id in w.s.events && Tagged(w, id)
    requires id in w'.tags && id in w'.s.events && w'.tags[id] == w.tags[id] && w'.s.events[id] == w.s.events[id]
    ensures Tagged(w', id)
  {
    forall i | 0 <= i < |w'.tags[id]|
      ensures FromLease(w', id, w'.tags[id][i])
      ensures w'.tags[id][i].fencing <= w.s.fencing
    {
      assert FromLease(w, id, w.tags[id][i]);
      KeepsFromLease(w, w', id, w.tags[id][i]);
    }
  }

  lemma KeepsTagHistory(cfg: Config, w: World, entry: Entry, m: LeaseMove)
    requires Sound(cfg) && StoreInv(w.s) && LeaseHistory(w) && TagHistory(w)
    requires Moves(w.s, Next(cfg, w, entry).s, m, entry.now)
    ensures TagHistory(Next(cfg, w, entry))
  {
    if Accepted(w.s, entry.op, entry.now) {
      AcceptedTags(cfg, w, entry, m);
    } else {
      UnacceptedLogs(cfg, w, entry);
      var w' := Next(cfg, w, entry);
      forall id | id in w'.tags ensures Tagged(w', id) {
        QuietTags(w, w', m, entry.now, id);
      }
    }
  }

  lemma AcceptedIs(cfg: Config, w: World, entry: Entry)
    requires Sound(cfg) && Accepted(w.s, entry.op, entry.now)
    ensures var w', id := Next(cfg, w, entry), entry.op.id;
            && id in w.s.leases && w'.s.leases == w.s.leases && w'.handed == w.handed
            && w'.s.events == w.s.events[id := Log(w.s, id) + entry.op.batch]
            && w'.tags == w.tags[id := TagsOf(w, id) + seq(|entry.op.batch|, _ => Tag(w.s.leases[id].fencing, w.s.leases[id].attemptId))]
  {
  }

  lemma AcceptedTags(cfg: Config, w: World, entry: Entry, m: LeaseMove)
    requires Sound(cfg) && StoreInv(w.s) && LeaseHistory(w) && TagHistory(w) && Accepted(w.s, entry.op, entry.now)
    requires Moves(w.s, Next(cfg, w, entry).s, m, entry.now)
    ensures TagHistory(Next(cfg, w, entry))
  {
    var w' := Next(cfg, w, entry);
    AcceptedIs(cfg, w, entry);
    AppendTags(w, w', entry.op.id, entry.op.batch);
    forall id | id in w'.tags && id != entry.op.id ensures Tagged(w', id) {
      QuietTags(w, w', m, entry.now, id);
    }
  }

  ghost predicate Inv(w: World) {
    StoreInv(w.s) && LeaseHistory(w) && TagHistory(w)
  }

  lemma StepKeepsInv(cfg: Config, w: World, entry: Entry) returns (m: LeaseMove)
    requires Sound(cfg) && Inv(w) && Fair(w, entry)
    ensures Inv(Next(cfg, w, entry))
    ensures Moves(w.s, Next(cfg, w, entry).s, m, entry.now)
    ensures m.Grant? ==> Minted(entry.op) == Some(m.lease.token)
  {
    var w' := Next(cfg, w, entry);
    m := Classify(cfg, w.s, entry.op, entry.now);
    KeepsOrder(cfg, w.s, entry.op, entry.now);
    KeepsLogs(cfg, w.s, entry.op, entry.now);
    GrantIsFresh(w, entry, m);
    KeepsLeasesKeyed(w.s, w'.s, m, entry.now);
    KeepsLeaseHistory(cfg, w, entry, m);
    KeepsTagHistory(cfg, w, entry, m);
  }

  lemma GrantIsFresh(w: World, entry: Entry, m: LeaseMove)
    requires LeaseHistory(w) && LeasesKeyed(w.s) && Fair(w, entry)
    requires m.Grant? ==> Minted(entry.op) == Some(m.lease.token)
    ensures m.Grant? ==> forall id :: id in w.s.leases ==> w.s.leases[id].token != m.lease.token
    ensures forall a, b :: a in w.s.leases && b in w.s.leases && w.s.leases[a].token == w.s.leases[b].token ==> a == b
  {
    forall a, b | a in w.s.leases && b in w.s.leases && w.s.leases[a].token == w.s.leases[b].token ensures a == b {
      TokensIdentifyTasks(w, a, b);
    }
    if m.Grant? {
      forall id | id in w.s.leases ensures w.s.leases[id].token != m.lease.token {
        var i :| 0 <= i < |w.handed| && SameLease(w.handed[i], w.s.leases[id]);
        assert w.handed[i].token == w.s.leases[id].token;
      }
    }
  }

  lemma UnacceptedLogs(cfg: Config, w: World, entry: Entry)
    requires Sound(cfg) && StoreInv(w.s) && TagHistory(w) && !Accepted(w.s, entry.op, entry.now)
    ensures var w' := Next(cfg, w, entry);
            w'.tags.Keys == w'.s.events.Keys <= w.tags.Keys
            && forall id :: id in w'.tags ==> w'.tags[id] == w.tags[id] && w'.s.events[id] == w.s.events[id]
  {
    if !entry.op.Delete? && !entry.op.Append? {
      KeepsLogs(cfg, w.s, entry.op, entry.now);
    }
  }

  lemma {:induction false} RunKeepsInv(cfg: Config, w: World, run: seq<Entry>)
    requires Sound(cfg) && Inv(w) && FairRun(cfg, w, run)
    ensures Inv(Run(cfg, w, run))
    decreases run
  {
    if run != [] {
      var m := StepKeepsInv(cfg, w, run[0]);
      RunKeepsInv(cfg, Next(cfg, w, run[0]), run[1..]);
    }
  }

  // ------------------------------------------------------------- main theorems

  ghost predicate OneLeasePerAttempt(w: World) {
    forall a, b :: 0 <= a < b < |w.handed| ==> w.handed[a].attemptId != w.handed[b].attemptId
  }

  /** No two leases ever handed out share a fencing token, through every failed claim and its
      rewind of the counter: the tokens rise in the order they were handed out. */
  lemma FencingTokensRise(cfg: Config, run: seq<Entry>)
    requires Sound(cfg) && FairRun(cfg, FRESH_WORLD, run)
    ensures var w := Run(cfg, FRESH_WORLD, run);
            forall i, j :: 0 <= i < j < |w.handed| ==> w.handed[i].fencing < w.handed[j].fencing
  {
    RunKeepsInv(cfg, FRESH_WORLD, run);
  }

  /** Along every log the events come in the order of the fencing tokens they were accepted
      under, so the events of one lease stand together. If no attempt is leased twice, the
      events of one attempt stand together as well. */
  lemma AttemptsNeverInterleave(cfg: Config, run: seq<Entry>, id: TaskId, i: nat, j: nat, k: nat)
    requires Sound(cfg) && FairRun(cfg, FRESH_WORLD, run)
    requires var w := Run(cfg, FRESH_WORLD, run);
             id in w.tags && i <= j <= k < |w.tags[id]|
    ensures var w := Run(cfg, FRESH_WORLD, run);
            && id in w.s.events && |w.s.events[id]| == |w.tags[id]|
            && w.tags[id][i].fencing <= w.tags[id][j].fencing <= w.tags[id][k].fencing
            && (w.tags[id][i].fencing == w.tags[id][k].fencing ==> w.tags[id][j] == w.tags[id][i])
            && (OneLeasePerAttempt(w) && w.tags[id][i].attemptId == w.tags[id][k].attemptId ==>
                  w.tags[id][j] == w.tags[id][i])
  {
    RunKeepsInv(cfg, FRESH_WORLD, run);
    var w := Run(cfg, FRESH_WORLD, run);
    assert FromLease(w, id, w.tags[id][i]) && FromLease(w, id, w.tags[id][j]) && FromLease(w, id, w.tags[id][k]);
    OneLeasePerToken(w, id, w.tags[id][i], w.tags[id][j]);
    OneLeasePerToken(w, id, w.tags[id][i], w.tags[id][k]);
  }

  lemma OneLeasePerToken(w: World, id: TaskId, a: Tag, b: Tag)
    requires LeaseHistory(w) && FromLease(w, id, a) && FromLease(w, id, b)
    ensures a.fencing == b.fencing ==> a == b
    ensures OneLeasePerAttempt(w) && a.attemptId == b.attemptId ==> a == b
  {
    var i :| 0 <= i < |w.handed| && w.handed[i].taskId == id && a == Tag(w.handed[i].fencing, w.handed[i].attemptId);
    var j :| 0 <= j < |w.handed| && w.handed[j].taskId == id && b == Tag(w.handed[j].fencing, w.handed[j].attemptId);
  }

  // ------------------------------------------------------------------- listings

  lemma {:induction false} AllAfter(log: seq<Event>, after: int)
    requires forall k :: 0 <= k < |log| ==> after < log[k].seqNo
    ensures After(log, after) == log
  {
    if log != [] {
      AllAfter(log[1..], after);
      assert log == [log[0]] + log[1..];
    }
  }

  lemma {:induction false} AfterIsTail(log: seq<Event>, after: int) returns (lo: nat)
    requires Rising(log)
    ensures lo <= |log| && After(log, after) == log[lo..]
    ensures forall k :: 0 <= k < |log| ==> (k < lo <==> log[k].seqNo <= after)
  {
    lo := 0;
    if log == [] || after < log[0].seqNo {
      AllAfter(log, after);
    } else {
      var n := AfterIsTail(log[1..], after);
      lo := n + 1;
      assert [] + After(log[1..], after) == log[lo..];
      forall k | 0 < k < |log| ensures k < lo <==> log[k].seqNo <= after {
        assert log[1..][k - 1] == log[k];
      }
    }
  }

  /** How far a page of at most `limit` reaches from `lo`; a negative limit leaves off that many at the end. */
  function PageEnd(lo: nat, n: nat, limit: Option<int>): (hi: nat)
    requires lo <= n
    ensures lo <= hi <= n
  {
    if limit.None? then n
    else if limit.value < 0 then if n + limit.value < lo then lo else n + limit.value
    else if lo + limit.value < n then lo + limit.value else n
  }

  /** After any run, a listing is one stretch of the log: what is past the cursor, up to the limit. */
  lemma ListingIsAStretch(cfg: Config, run: seq<Entry>, id: TaskId, afterSeq: Option<int>, limit: Option<int>)
    returns (lo: nat)
    requires Sound(cfg) && FairRun(cfg, FRESH_WORLD, run)
    ensures var s := Run(cfg, FRESH_WORLD, run).s;
            var log := Log(s, id);
            && lo <= |log| && ListEvents(s, id, afterSeq, limit) == log[lo..PageEnd(lo, |log|, limit)]
            && forall k :: 0 <= k < |log| ==> (k < lo <==> afterSeq.Some? && log[k].seqNo <= afterSeq.value)
  {
    RunKeepsInv(cfg, FRESH_WORLD, run);
    lo := ListingOf(Run(cfg, FRESH_WORLD, run).s, id, afterSeq, limit);
  }

  lemma PrefixIsPage(log: seq<Event>, lo: nat, limit: Option<int>)
    requires lo <= |log|
    ensures log[lo..PageEnd(lo, |log|, limit)] == if limit.Some? then Prefix(log[lo..], limit.value) else log[lo..]
  {
  }

  lemma ListingFrom(s: Store, id: TaskId, afterSeq: Option<int>, limit: Option<int>, log: seq<Event>, lo: nat)
    requires log == Log(s, id) && lo <= |log|
    requires (if afterSeq.Some? then After(log, afterSeq.value) else log) == log[lo..]
    ensures ListEvents(s, id, afterSeq, limit) == log[lo..PageEnd(lo, |log|, limit)]
  {
    PrefixIsPage(log, lo, limit);
  }

  lemma ListingOf(s: Store, id: TaskId, afterSeq: Option<int>, limit: Option<int>) returns (lo: nat)
    requires Rising(Log(s, id))
    ensures var log := Log(s, id);
            && lo <= |log| && ListEvents(s, id, afterSeq, limit) == log[lo..PageEnd(lo, |log|, limit)]
            && forall k :: 0 <= k < |log| ==> (k < lo <==> afterSeq.Some? && log[k].seqNo <= afterSeq.value)
  {
    var log := Log(s, id);
    if afterSeq.Some? {
      lo := AfterIsTail(log, afterSeq.value);
    } else {
      lo := 0;
      assert log[0..] == log;
    }
    ListingFrom(s, id, afterSeq, limit, log, lo);
  }
}
