/**
 What each operation writes to the records of tasks, told field by field, and what a record is after any
 run: its identity is that of its last creation, and its status moves along the edges of the table only.
 */
module TaskRecords {
  import opened Wrappers
  import opened TaskModel
  import opened TaskClaim
  import opened ClaimProofs
  import opened TaskFrames
  import opened TaskRuns
  import opened TaskHistory

  // ------------------------------------------------------------------------- statuses

  predicate Finished(status: Status) {
    status == Completed || status == Failed || status == Cancelled
  }

  /** The transition table, read by where an edge leads. */
  predicate Edge(from: Status, to: Status) {
    match to
    case Queued => from == Interrupted || from == WaitingApproval
    case Running => from == Queued || from == WaitingApproval
    case WaitingApproval => from == Running
    case Interrupted => from == Queued || from == Running
    case Completed => from == Running || from == WaitingApproval
    case Failed => from == Queued || from == Running || from == WaitingApproval
    case Cancelled => !Finished(from)
  }

  lemma EdgeIs(from: Status, to: Status)
    ensures Edge(from, to) <==> to in Successors(from)
    ensures Finished(from) <==> forall x :: !Edge(from, x)
  {
    if !Finished(from) {
      assert Edge(from, Cancelled);
    }
  }

  /** A lease token is presented that does not hold the lease. */
  predicate FencedOut(s: Store, id: TaskId, token: Option<Token>, now: int) {
    token != None && !(id in s.leases && s.leases[id].token == token.value && s.leases[id].expiresAt > now)
  }

  // ------------------------------------------------------------------------- creation

  /** Two tasks of an exclusive scope would be unfinished. */
  predicate ScopeTaken(s: Store, input: CreateInput) {
    input.exclusive && exists x :: x in s.tasks && s.tasks[x].scope == input.scope && !Finished(s.tasks[x].status)
  }

  predicate LinksFine(s: Store, input: CreateInput) {
    && (input.parent != None ==> input.parent.value in s.tasks)
    && forall d :: d in input.dependsOn ==> d != input.taskId && d in s.tasks
  }

  predicate MayCreate(s: Store, input: CreateInput) {
    input.taskId !in s.tasks && !ScopeTaken(s, input) && LinksFine(s, input) && input.availableAt != Some(Unparsable)
  }

  /** At the instant asked for, or else at the default one. */
  predicate DueAt(asked: Option<Instant>, due: int, default: int) {
    match asked
    case None => due == default
    case Some(At(ms)) => due == ms
    case Some(Unparsable) => false
  }

  /** As it was submitted: queued from now on, due at once or at the instant asked for, nothing tried yet. */
  predicate JustCreated(task: Task, input: CreateInput, now: int) {
    && DescribedBy(task, input, now)
    && task.status == Queued && task.priority == input.priority && task.payload == input.payload
    && DueAt(input.availableAt, task.availableAt, now)
    && task.startedAt == None && task.finishedAt == None && task.error == None && task.progress == None
    && task.deadLetter == None && task.attemptCount == 0 && task.poisonCount == 0
  }

  /** What never changes of a record. */
  predicate DescribedBy(task: Task, input: CreateInput, now: int) {
    && task.kind == input.kind && task.scope == input.scope && task.parent == input.parent
    && task.dependsOn == input.dependsOn && task.enqueuedAt == now
  }

  lemma {:induction false} BadDependencyIs(s: Store, self: TaskId, deps: seq<TaskId>)
    ensures match BadDependency(s, self, deps)
            case None => forall d :: d in deps ==> d != self && d in s.tasks
            case Some(d) => d in deps && (d == self || d !in s.tasks)
  {
    if deps != [] {
      BadDependencyIs(s, self, deps[1..]);
      assert deps == [deps[0]] + deps[1..];
    }
  }

  lemma ScopeTakenIs(s: Store, input: CreateInput)
    ensures ScopeTaken(s, input) <==> input.exclusive && UnfinishedIn(s, input.scope) != {}
  {
    assert forall x :: x in s.tasks ==> (Terminal(s.tasks[x].status) <==> Finished(s.tasks[x].status));
    if ScopeTaken(s, input) {
      var x :| x in s.tasks && s.tasks[x].scope == input.scope && !Finished(s.tasks[x].status);
      assert x in UnfinishedIn(s, input.scope);
    }
  }

  /** Exactly these submissions are taken, each as it was submitted and behind all tasks there are; a
      refused one changes nothing, and says which of the reasons comes first. */
  lemma CreatedIff(s: Store, input: CreateInput, now: int)
    ensures var (e, answer) := CreateTask(s, input, now);
            && (answer.Ok? <==> MayCreate(s, input))
            && (answer.Ok? ==>
                  && e == s.(tasks := e.tasks, order := s.order + [input.taskId])
                  && e.tasks.Keys == s.tasks.Keys + {input.taskId}
                  && (forall x :: x in s.tasks ==> e.tasks[x] == s.tasks[x])
                  && e.tasks[input.taskId] == answer.value && JustCreated(answer.value, input, now))
            && (answer.Err? ==> e == s)
            && (answer == Err(DuplicateTask) <==> input.taskId in s.tasks)
            && (answer.Err? && answer.error.ScopeBusy? <==> input.taskId !in s.tasks && ScopeTaken(s, input))
            && (answer == Err(InvalidTimestamp) <==>
                  input.taskId !in s.tasks && !ScopeTaken(s, input) && LinksFine(s, input)
                  && input.availableAt == Some(Unparsable))
  {
    ScopeTakenIs(s, input);
    BadDependencyIs(s, input.taskId, input.dependsOn);
  }

  // ---------------------------------------------------------------------- transitions

  /** Field by field: what the patch names, else what was there. */
  predicate Patched(was: Task, now: Task, patch: Patch) {
    && (patch.startedAt == None ==> now.startedAt == was.startedAt)
    && (patch.startedAt != None ==> now.startedAt == patch.startedAt)
    && (patch.finishedAt == None ==> now.finishedAt == was.finishedAt)
    && (patch.finishedAt != None ==> now.finishedAt == patch.finishedAt)
    && (patch.error == None ==> now.error == was.error)
    && (patch.error != None ==> now.error == patch.error)
    && DueAt(patch.availableAt, now.availableAt, was.availableAt)
    && (patch.priority == None ==> now.priority == was.priority)
    && (patch.priority != None ==> patch.priority == Some(now.priority))
    && (patch.poisonCount == None ==> now.poisonCount == was.poisonCount)
    && (patch.poisonCount != None ==> patch.poisonCount == Some(now.poisonCount))
    && (patch.payload == None ==> now.payload == was.payload)
    && (patch.payload != None ==> patch.payload == Some(now.payload))
    && now.attemptCount == was.attemptCount
  }

  predicate MayMove(s: Store, id: TaskId, from: set<Status>, to: Status, patch: Patch, token: Option<Token>, now: int) {
    && patch.availableAt != Some(Unparsable) && id in s.tasks && !FencedOut(s, id, token, now)
    && s.tasks[id].status in from && Edge(s.tasks[id].status, to)
  }

  /** A transition is made exactly along an edge from a status asked for, by whoever holds the lease or
      presents no token; it writes that one record, its status and what the patch names. */
  lemma MovedIff(s: Store, id: TaskId, from: set<Status>, to: Status, patch: Patch, token: Option<Token>, now: int)
    ensures var (e, answer) := TransitionTask(s, id, from, to, patch, token, now);
            && (answer.Ok? <==> MayMove(s, id, from, to, patch, token, now))
            && (answer.Err? ==> e == s)
            && (answer.Ok? ==>
                  && e == s.(tasks := s.tasks[id := answer.value])
                  && answer.value.status == to && Patched(s.tasks[id], answer.value, patch)
                  && Alike(s.tasks[id], answer.value) && SameReports(s.tasks[id], answer.value))
            && (answer == Err(NotFound) <==> patch.availableAt != Some(Unparsable) && id !in s.tasks)
            && (answer == Err(LeaseLost) <==>
                  patch.availableAt != Some(Unparsable) && id in s.tasks && FencedOut(s, id, token, now))
            && (answer == Err(InvalidTimestamp) <==> patch.availableAt == Some(Unparsable))
  {
    if id in s.tasks {
      EdgeIs(s.tasks[id].status, to);
    }
  }

  /** Progress and dead letters are written by the holder of the lease, for a task that exists; each writes
      its own field only. */
  lemma ReportedIff(s: Store, id: TaskId, progress: string, holder: Token, reason: string, token: Option<Token>, now: int)
    ensures var (e, answer) := UpdateProgress(s, id, progress, holder, now);
            && (answer.Ok? <==> id in s.tasks && !FencedOut(s, id, Some(holder), now))
            && (answer == Err(NotFound) <==> id !in s.tasks)
            && (answer.Err? ==> e == s)
            && (answer.Ok? ==>
                  && e == s.(tasks := s.tasks[id := answer.value])
                  && answer.value.progress == Some(progress) && answer.value.(progress := None) == s.tasks[id].(progress := None))
    ensures var (e, answer) := MarkDeadLettered(s, id, reason, token, now);
            && (answer.Ok? <==> id in s.tasks && !FencedOut(s, id, token, now))
            && (answer == Err(NotFound) <==> id !in s.tasks)
            && (answer.Err? ==> e == s)
            && (answer.Ok? ==>
                  && e == s.(tasks := s.tasks[id := answer.value])
                  && answer.value.deadLetter == Some((now, reason)) && answer.value.(deadLetter := None) == s.tasks[id].(deadLetter := None))
  {
  }

  // ----------------------------------------------------------------------- interrupts

  predicate Stoppable(s: Store, id: TaskId, token: Option<Token>, now: int) {
    !FencedOut(s, id, token, now) && id in s.tasks && (s.tasks[id].status == Queued || s.tasks[id].status == Running)
  }

  /** Where the clock never fails: exactly a queued or running task is interrupted, its reason recorded, every
      attempt of it that runs cancelled with that reason and at that instant, and its lease gone; nothing else
      changes. Of any other task the answer is that there was nothing to interrupt. */
  lemma InterruptedIff(s: Store, id: TaskId, reason: string, token: Option<Token>, now: int)
    ensures var (e, answer) := InterruptTask(s, id, reason, token, now, None);
            && (answer == Ok(true) <==> Stoppable(s, id, token, now))
            && (answer == Err(LeaseLost) <==> FencedOut(s, id, token, now))
            && (answer == Ok(true) || answer == Ok(false) || answer == Err(LeaseLost))
            && (answer != Ok(true) ==> e == s)
            && (answer == Ok(true) ==>
                  && e.tasks == s.tasks[id := s.tasks[id].(status := Interrupted, error := Some(reason))]
                  && e.attempts.Keys == s.attempts.Keys
                  && (forall a :: a in s.attempts && (s.attempts[a].taskId != id || s.attempts[a].status != AttemptRunning) ==>
                        e.attempts[a] == s.attempts[a])
                  && (forall a :: a in s.attempts && s.attempts[a].taskId == id && s.attempts[a].status == AttemptRunning ==>
                        e.attempts[a] == s.attempts[a].(status := AttemptCancelled, error := Some(reason), endedAt := Some(now)))
                  && id !in e.leases && (forall x :: x in s.leases && x != id ==> x in e.leases && e.leases[x] == s.leases[x])
                  && e.order == s.order && e.events == s.events && e.eventIds == s.eventIds && e.fencing == s.fencing)
  {
  }

  /** Of all tasks, exactly those that were queued by the instant are interrupted, and that many are counted. */
  lemma InterruptedBefore(s: Store, before: Instant)
    ensures var (e, answer) := InterruptQueued(s, before);
            && (answer == Err(InvalidTimestamp) <==> before == Unparsable)
            && (answer.Err? ==> e == s)
            && (answer.Ok? ==>
                  && e == s.(tasks := e.tasks) && e.tasks.Keys == s.tasks.Keys
                  && (forall id :: id in s.tasks && s.tasks[id].status == Queued && s.tasks[id].enqueuedAt <= before.ms ==>
                        e.tasks[id] == s.tasks[id].(status := Interrupted, error := Some("manual_recovery")))
                  && (forall id :: id in s.tasks && !(s.tasks[id].status == Queued && s.tasks[id].enqueuedAt <= before.ms) ==>
                        e.tasks[id] == s.tasks[id])
                  && answer.value == |set id | id in s.tasks && e.tasks[id] != s.tasks[id]|)
  {
    if before.At? {
      var e := InterruptQueued(s, before).0;
      assert QueuedBefore(s, before.ms) == set id | id in s.tasks && e.tasks[id] != s.tasks[id];
    }
  }

  // -------------------------------------------------------------------------- attempts

  /** An attempt starts as number `n + 1` of a task with `n` before it, and the task counts it. */
  lemma AttemptedIff(s: Store, attemptId: AttemptId, id: TaskId, owner: string, clock: Option<int>)
    ensures var (e, answer) := CreateAttempt(s, attemptId, id, owner, clock);
            && (answer.Ok? <==> id in s.tasks && clock != None)
            && (answer == Err(NotFound) <==> id !in s.tasks)
            && (id !in s.tasks ==> e == s)
            && (id in s.tasks ==>
                  && e == s.(tasks := e.tasks, attempts := e.attempts)
                  && e.tasks == s.tasks[id := s.tasks[id].(attemptCount := s.tasks[id].attemptCount + 1)])
            && (answer.Ok? ==>
                  && e.attempts == s.attempts[attemptId := answer.value]
                  && answer.value.taskId == id && answer.value.number == s.tasks[id].attemptCount + 1
                  && answer.value.status == AttemptRunning && answer.value.owner == owner
                  && Some(answer.value.startedAt) == clock && answer.value.endedAt == None && answer.value.error == None)
            && (answer.Err? ==> e.attempts == s.attempts)
  {
  }

  /** Exactly a running attempt is ended, with the status, instant and error given, and an abandoned one is
      charged to its task; of an attempt that has ended the record is answered as it stands. */
  lemma EndedIff(s: Store, a: AttemptId, status: AttemptStatus, error: Option<string>, token: Option<Token>, now: int, at: int)
    ensures var (e, answer) := EndAttempt(s, a, status, error, token, now, Some(at));
            && (answer == Err(NotFound) <==> a !in s.attempts)
            && (answer == Err(LeaseLost) <==> a in s.attempts && FencedOut(s, s.attempts[a].taskId, token, now))
            && (answer.Err? <==> a !in s.attempts || FencedOut(s, s.attempts[a].taskId, token, now))
            && (answer.Err? || s.attempts[a].status != AttemptRunning ==> e == s)
            && (answer.Ok? ==> a in e.attempts && answer.value == e.attempts[a])
            && (answer.Ok? && s.attempts[a].status == AttemptRunning ==>
                  var was, id := s.attempts[a], s.attempts[a].taskId;
                  && e == s.(tasks := e.tasks, attempts := s.attempts[a := answer.value])
                  && answer.value.status == status && answer.value.endedAt == Some(at)
                  && answer.value.error == (if error == None then was.error else error)
                  && answer.value.taskId == id && answer.value.number == was.number
                  && answer.value.owner == was.owner && answer.value.startedAt == was.startedAt
                  && e.tasks.Keys == s.tasks.Keys
                  && (forall x :: x in s.tasks && (x != id || status != Abandoned) ==> e.tasks[x] == s.tasks[x])
                  && (status == Abandoned && id in s.tasks ==>
                        e.tasks[id] == s.tasks[id].(poisonCount := s.tasks[id].poisonCount + 1)))
  {
  }

  // ------------------------------------------------------------------------------ logs

  predicate Climbs(last: int, batch: seq<Event>) {
    && (batch != [] ==> last < batch[0].seqNo)
    && forall i :: 0 < i < |batch| ==> batch[i - 1].seqNo < batch[i].seqNo
  }

  ghost predicate NewIds(ids: set<EventId>, batch: seq<Event>) {
    && (forall i :: 0 <= i < |batch| ==> batch[i].id !in ids)
    && forall i, j :: 0 <= i < j < |batch| ==> batch[i].id != batch[j].id
  }

  lemma ClimbsIs(last: int, batch: seq<Event>)
    requires batch != []
    ensures Climbs(last, batch) <==> last < batch[0].seqNo && Climbs(batch[0].seqNo, batch[1..])
  {
    if Climbs(batch[0].seqNo, batch[1..]) {
      forall i | 0 < i < |batch| ensures batch[i - 1].seqNo < batch[i].seqNo {
        if i > 1 {
          assert batch[1..][i - 2].seqNo < batch[1..][i - 1].seqNo;
        }
      }
    }
  }

  lemma NewIdsIs(ids: set<EventId>, batch: seq<Event>)
    requires batch != []
    ensures NewIds(ids, batch) <==> batch[0].id !in ids && NewIds(ids + {batch[0].id}, batch[1..])
  {
    var head, rest := batch[0].id, batch[1..];
    if head !in ids && NewIds(ids + {head}, rest) {
      forall i | 0 <= i < |batch| ensures batch[i].id !in ids {
        if i > 0 { assert rest[i - 1].id !in ids + {head}; }
      }
      forall i, j | 0 <= i < j < |batch| ensures batch[i].id != batch[j].id {
        assert rest[j - 1].id !in ids + {head};
        if i > 0 { assert rest[i - 1].id != rest[j - 1].id; }
      }
    }
    if NewIds(ids, batch) {
      forall i | 0 <= i < |rest| ensures rest[i].id !in ids + {head} {
        assert rest[i] == batch[i + 1] && batch[0].id != batch[i + 1].id;
      }
    }
  }

  lemma {:induction false} AppendableIs(last: int, ids: set<EventId>, batch: seq<Event>)
    ensures Appendable(last, ids, batch) <==> Climbs(last, batch) && NewIds(ids, batch)
    decreases batch
  {
    if batch != [] {
      AppendableIs(batch[0].seqNo, ids + {batch[0].id}, batch[1..]);
      ClimbsIs(last, batch);
      NewIdsIs(ids, batch);
    }
  }

  /** The ids of the events in a task's log. */
  function IdsIn(s: Store, id: TaskId): set<EventId> {
    set i | 0 <= i < |Log(s, id)| :: Log(s, id)[i].id
  }

  /** The number an event must exceed: that of the last event, or -1 where there is none. */
  predicate EndsAt(s: Store, id: TaskId, last: int) {
    if Log(s, id) == [] then last == -1 else last == Log(s, id)[|Log(s, id)| - 1].seqNo
  }

  /** Exactly a batch that rises past the log, and repeats no id of it or its own, is appended, all of it and
      behind what is there, if the token holds the lease; any other one changes nothing. */
  lemma AppendedIff(s: Store, id: TaskId, batch: seq<Event>, token: Token, now: int, last: int)
    requires LogsIndexed(s) && EndsAt(s, id, last)
    ensures var (e, answer) := AppendEvents(s, id, batch, token, now);
            && (answer == Err(LeaseLost) <==> FencedOut(s, id, Some(token), now))
            && (answer == Err(SeqConflict) <==>
                  !FencedOut(s, id, Some(token), now) && !(Climbs(last, batch) && NewIds(IdsIn(s, id), batch)))
            && (answer == Ok(()) || answer == Err(LeaseLost) || answer == Err(SeqConflict))
            && (answer.Err? ==> e == s)
            && (answer.Ok? ==>
                  && Log(e, id) == Log(s, id) + batch && (forall x :: x != id ==> Log(e, x) == Log(s, x))
                  && e == s.(events := e.events, eventIds := e.eventIds))
  {
    AppendableIs(last, LogIds(s, id), batch);
    assert LogIds(s, id) == IdsIn(s, id);
  }

  // ---------------------------------------------------------- what a step leaves of a record

  /** The same task: what it is, where it belongs, since when it waits. */
  predicate Alike(a: Task, b: Task) {
    a.kind == b.kind && a.scope == b.scope && a.parent == b.parent && a.dependsOn == b.dependsOn && a.enqueuedAt == b.enqueuedAt
  }

  predicate SameReports(a: Task, b: Task) {
    a.progress == b.progress && a.deadLetter == b.deadLetter
  }

  /** What a claim reads of a task apart from its status. */
  predicate SameTerms(a: Task, b: Task) {
    a.priority == b.priority && a.payload == b.payload && a.availableAt == b.availableAt
  }

  predicate Moved(a: Task, b: Task) {
    b.status == a.status || Edge(a.status, b.status)
  }

  predicate Carried(a: Task, b: Task) {
    Alike(a, b) && SameReports(a, b) && SameTerms(a, b) && Moved(a, b)
  }

  ghost predicate AllCarried(s: Store, e: Store) {
    e.tasks.Keys == s.tasks.Keys && forall id :: id in s.tasks ==> Carried(s.tasks[id], e.tasks[id])
  }

  lemma EndingCarries(s: Store, mid: Store, ended: set<TaskId>)
    requires EndedExactly(s, mid, ended)
    ensures AllCarried(s, mid)
  {
  }

  lemma ClaimTaskCarries(s: Store, id: TaskId, q: Query, leaseTtlMs: int, env: Env)
    requires id in s.tasks && s.tasks[id].status == Queued
    ensures var e := ClaimTask(s, id, q, leaseTtlMs, env).0;
            e.tasks == s.tasks || (AllCarried(s, e) && e.tasks == s.tasks[id := e.tasks[id]] && e.tasks[id].status == Running)
  {
    if ClaimTask(s, id, q, leaseTtlMs, env).1.Ok? {
      SuccessfulClaim(s, id, q, leaseTtlMs, env);
    } else if WroteAttempt(env) {
      assert ClaimTask(s, id, q, leaseTtlMs, env).0 == Undo(CaptureOf(s, id), GaveUpAtLease(s, id, q, env), id);
      FailureAtLease(s, id, q, env);
    } else {
      FailureBeforeAttempt(s, id, q, leaseTtlMs, env);
    }
  }

  /** A claim ends queued tasks or takes one of them, but never one it has ended. */
  lemma ClaimCarries(cfg: Config, s: Store, q: Query, env: Env)
    requires Sound(cfg) && WellOrdered(s)
    ensures AllCarried(s, ClaimNext(s, q, cfg.aging, cfg.leaseTtlMs, env).0)
  {
    var story := ClaimTakesFirstReady(s, q, cfg.aging, cfg.leaseTtlMs, env);
    EndingCarries(s, story.mid, story.ended);
    if story.id.Some? {
      ClaimTaskCarries(story.mid, story.id.value, q, cfg.leaseTtlMs, env);
      assert story.mid.tasks[story.id.value].status == Queued;
    }
  }

  lemma InterruptCarries(s: Store, id: TaskId, reason: string, fence: Option<Token>, now: int, stop: Option<Stop>)
    ensures AllCarried(s, InterruptTask(s, id, reason, fence, now, stop).0)
  {
    var e := InterruptTask(s, id, reason, fence, now, stop).0;
    if e.tasks != s.tasks {
      OneCarried(s, e, id, s.tasks[id].(status := Interrupted, error := Some(reason)));
    }
  }

  lemma BulkInterruptCarries(s: Store, before: Instant)
    ensures AllCarried(s, InterruptQueued(s, before).0)
  {
  }

  /** One record rewritten, to one that is carried on. */
  lemma OneCarried(s: Store, e: Store, id: TaskId, task: Task)
    requires id in s.tasks && e.tasks == s.tasks[id := task] && Carried(s.tasks[id], task)
    ensures AllCarried(s, e)
  {
  }

  lemma AttemptCarries(s: Store, a: AttemptId, id: TaskId, owner: string, clock: Option<int>)
    ensures AllCarried(s, CreateAttempt(s, a, id, owner, clock).0)
  {
    var e := CreateAttempt(s, a, id, owner, clock).0;
    AttemptedIff(s, a, id, owner, clock);
    if id in s.tasks {
      OneCarried(s, e, id, e.tasks[id]);
    }
  }

  lemma EndingAttemptCarries(s: Store, a: AttemptId, status: AttemptStatus, error: Option<string>,
                             fence: Option<Token>, now: int, clock: Option<int>)
    ensures AllCarried(s, EndAttempt(s, a, status, error, fence, now, clock).0)
  {
    var e := EndAttempt(s, a, status, error, fence, now, clock).0;
    if e.tasks != s.tasks {
      var id := s.attempts[a].taskId;
      OneCarried(s, e, id, s.tasks[id].(poisonCount := s.tasks[id].poisonCount + 1));
    }
  }

  /** Only a transition changes what a claim goes by or the payload, only a report changes what it reports,
      and nothing else than a creation or a delete changes what a record describes. */
  ghost predicate StepCarried(s: Store, e: Store, op: Op) {
    forall id :: id in s.tasks && id in e.tasks ==>
      && Alike(s.tasks[id], e.tasks[id]) && Moved(s.tasks[id], e.tasks[id])
      && (!op.Transition? ==> SameTerms(s.tasks[id], e.tasks[id]))
      && (!op.Progress? ==> e.tasks[id].progress == s.tasks[id].progress)
      && (!op.DeadLetter? ==> e.tasks[id].deadLetter == s.tasks[id].deadLetter)
  }

  predicate OneWrite(op: Op) {
    op.Transition? || op.Progress? || op.DeadLetter?
  }

  lemma OneWriteCarries(cfg: Config, s: Store, op: Op, now: int)
    requires Sound(cfg) && OneWrite(op)
    ensures StepCarried(s, Apply(cfg, s, op, now), op) && Apply(cfg, s, op, now).tasks.Keys == s.tasks.Keys
  {
    match op {
      case Transition(id, from, to, patch, fence) => MovedIff(s, id, from, to, patch, fence, now);
      case Progress(id, progress, token) => ReportedIff(s, id, progress, token, "", None, now);
      case DeadLetter(id, reason, fence) => ReportedIff(s, id, "", "", reason, fence, now);
    }
  }

  lemma LeaseWriteCarries(cfg: Config, s: Store, op: Op, now: int)
    requires Sound(cfg) && WellOrdered(s) && (LeaseWrite(op) || op.Append?)
    ensures AllCarried(s, Apply(cfg, s, op, now))
  {
    if !op.Append? {
      StepFrame(cfg, s, op, now);
    }
    assert Apply(cfg, s, op, now).tasks == s.tasks;
  }

  lemma RestCarries(cfg: Config, s: Store, op: Op, now: int)
    requires Sound(cfg) && WellOrdered(s) && !OneWrite(op) && !op.Create? && !op.Delete?
    ensures AllCarried(s, Apply(cfg, s, op, now))
  {
    match op {
      case Interrupt(id, reason, fence, stop) => InterruptCarries(s, id, reason, fence, now, stop);
      case InterruptBefore(before) => BulkInterruptCarries(s, before);
      case NewAttempt(a, id, owner, fails) => AttemptCarries(s, a, id, owner, Clock(fails, now));
      case FinishAttempt(a, status, error, fence, fails) =>
        EndingAttemptCarries(s, a, status, error, fence, now, Clock(fails, now));
      case Claim(q, env) => ClaimCarries(cfg, s, q, env.(now := now));
      case _ => LeaseWriteCarries(cfg, s, op, now);
    }
  }

  /** Every step of every worker carries the records on in this way. */
  lemma EveryStepCarries(cfg: Config, s: Store, op: Op, now: int)
    requires Sound(cfg) && WellOrdered(s)
    ensures StepCarried(s, Apply(cfg, s, op, now), op)
    ensures !op.Create? && !op.Delete? ==> Apply(cfg, s, op, now).tasks.Keys == s.tasks.Keys
  {
    if OneWrite(op) {
      OneWriteCarries(cfg, s, op, now);
    } else if op.Create? {
      CreatedIff(s, op.input, now);
    } else if !op.Delete? {
      RestCarries(cfg, s, op, now);
    }
  }

  // ---------------------------------------------------------------------------- runs

  predicate Creates(s: Store, op: Op, id: TaskId) {
    op.Create? && op.input.taskId == id && MayCreate(s, op.input)
  }

  /** The last step of the run that created the task. */
  function LastCreation(cfg: Config, w: World, run: seq<Entry>, id: TaskId): Option<Entry>
    requires Sound(cfg)
    decreases run
  {
    if run == [] then None
    else
      var later := LastCreation(cfg, Next(cfg, w, run[0]), run[1..], id);
      if later.Some? then later else if Creates(w.s, run[0].op, id) then Some(run[0]) else None
  }

  lemma {:induction false} CreationIsCreate(cfg: Config, w: World, run: seq<Entry>, id: TaskId)
    requires Sound(cfg) && LastCreation(cfg, w, run, id).Some?
    ensures LastCreation(cfg, w, run, id).value in run && LastCreation(cfg, w, run, id).value.op.Create?
    decreases run
  {
    if LastCreation(cfg, Next(cfg, w, run[0]), run[1..], id).Some? {
      CreationIsCreate(cfg, Next(cfg, w, run[0]), run[1..], id);
    }
  }

  lemma AfterStep(cfg: Config, s: Store, op: Op, now: int, id: TaskId)
    requires Sound(cfg) && WellOrdered(s) && id in Apply(cfg, s, op, now).tasks
    ensures if Creates(s, op, id) then JustCreated(Apply(cfg, s, op, now).tasks[id], op.input, now)
            else id in s.tasks && Alike(s.tasks[id], Apply(cfg, s, op, now).tasks[id])
  {
    EveryStepCarries(cfg, s, op, now);
    if op.Create? {
      CreatedIff(s, op.input, now);
    }
  }

  /** The record a run ends with: as its last creation describes it, or as it was if there was none. */
  lemma {:induction false} RecordIs(cfg: Config, w: World, run: seq<Entry>, id: TaskId)
    requires Sound(cfg) && Inv(w) && FairRun(cfg, w, run) && id in Run(cfg, w, run).s.tasks
    ensures match LastCreation(cfg, w, run, id)
            case Some(e) => e.op.Create? && DescribedBy(Run(cfg, w, run).s.tasks[id], e.op.input, e.now)
            case None => id in w.s.tasks && Alike(w.s.tasks[id], Run(cfg, w, run).s.tasks[id])
    decreases run
  {
    if run != [] {
      var e := run[0];
      var w1 := Next(cfg, w, e);
      var m := StepKeepsInv(cfg, w, e);
      RecordIs(cfg, w1, run[1..], id);
      if LastCreation(cfg, w1, run[1..], id).None? {
        AfterStep(cfg, w.s, e.op, e.now, id);
      }
    }
  }

  /** After any run of any workers, every task there is was created in it, and its kind, scope, parent,
      dependencies and the instant it waits since are those of its last creation. */
  lemma EveryRecordIsAsCreated(cfg: Config, run: seq<Entry>, id: TaskId)
    requires Sound(cfg) && FairRun(cfg, FRESH_WORLD, run) && id in Run(cfg, FRESH_WORLD, run).s.tasks
    ensures var e := LastCreation(cfg, FRESH_WORLD, run, id);
            && e.Some? && e.value in run && e.value.op.Create?
            && DescribedBy(Run(cfg, FRESH_WORLD, run).s.tasks[id], e.value.op.input, e.value.now)
  {
    RecordIs(cfg, FRESH_WORLD, run, id);
    CreationIsCreate(cfg, FRESH_WORLD, run, id);
  }

  ghost predicate Stays(cfg: Config, w: World, run: seq<Entry>, id: TaskId)
    requires Sound(cfg)
    decreases run
  {
    id in w.s.tasks && (run == [] || Stays(cfg, Next(cfg, w, run[0]), run[1..], id))
  }

  lemma FinishedCannotMove(s: Store, id: TaskId, from: set<Status>, to: Status, patch: Patch, token: Option<Token>, now: int, x: TaskId)
    requires x in s.tasks && Finished(s.tasks[x].status)
    ensures var e := TransitionTask(s, id, from, to, patch, token, now).0;
            x in e.tasks && e.tasks[x] == s.tasks[x]
  {
    MovedIff(s, id, from, to, patch, token, now);
  }

  ghost predicate Frozen(a: Task, b: Task) {
    b.status == a.status && SameTerms(a, b)
  }

  lemma CarriedFrozen(s: Store, e: Store, op: Op, id: TaskId)
    requires StepCarried(s, e, op) && !op.Transition? && id in s.tasks && id in e.tasks && Finished(s.tasks[id].status)
    ensures Frozen(s.tasks[id], e.tasks[id])
  {
  }

  lemma StaysFinished(cfg: Config, s: Store, op: Op, now: int, id: TaskId)
    requires Sound(cfg) && WellOrdered(s) && id in s.tasks && Finished(s.tasks[id].status)
    requires id in Apply(cfg, s, op, now).tasks
    ensures Frozen(s.tasks[id], Apply(cfg, s, op, now).tasks[id])
  {
    if op.Transition? {
      FinishedCannotMove(s, op.id, op.from, op.to, op.patch, op.fence, now, id);
    } else {
      EveryStepCarries(cfg, s, op, now);
      CarriedFrozen(s, Apply(cfg, s, op, now), op, id);
    }
  }

  /** A task that is completed, failed or cancelled stays so, and takes no other terms, for as long as it is there. */
  lemma {:induction false} FinishedForGood(cfg: Config, w: World, run: seq<Entry>, id: TaskId)
    requires Sound(cfg) && Inv(w) && FairRun(cfg, w, run) && Stays(cfg, w, run, id)
    requires Finished(w.s.tasks[id].status)
    ensures id in Run(cfg, w, run).s.tasks
    ensures Run(cfg, w, run).s.tasks[id].status == w.s.tasks[id].status && SameTerms(w.s.tasks[id], Run(cfg, w, run).s.tasks[id])
    decreases run
  {
    if run != [] {
      var w1 := Next(cfg, w, run[0]);
      var m := StepKeepsInv(cfg, w, run[0]);
      StaysFinished(cfg, w.s, run[0].op, run[0].now, id);
      FinishedForGood(cfg, w1, run[1..], id);
    }
  }
}
