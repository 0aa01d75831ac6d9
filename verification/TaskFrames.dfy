/** What each operation of the task store leaves alone. */
module TaskFrames {
  import opened Wrappers
  import opened TaskModel
  import opened TaskClaim
  import opened ClaimProofs

  /** Which tasks there are, what they link to, and the logs. */
  ghost predicate SameRows(s: Store, e: Store) {
    && e.tasks.Keys == s.tasks.Keys && e.order == s.order && e.events == s.events && e.eventIds == s.eventIds
    && forall id :: id in s.tasks ==> e.tasks[id].dependsOn == s.tasks[id].dependsOn && e.tasks[id].parent == s.tasks[id].parent
  }

  /** No attempt came to name a task that does not exist. */
  ghost predicate SameAttemptTasks(s: Store, e: Store) {
    forall a :: a in e.attempts ==>
      e.attempts[a].taskId in s.tasks || (a in s.attempts && e.attempts[a].taskId == s.attempts[a].taskId)
  }

  ghost predicate Frame(s: Store, e: Store) {
    SameRows(s, e) && SameAttemptTasks(s, e)
  }

  ghost predicate SameLeases(s: Store, e: Store) {
    e.leases == s.leases && e.byToken == s.byToken && e.fencing == s.fencing
  }

  /** Leases and nothing else. */
  ghost predicate OnlyLeases(s: Store, e: Store) {
    e == s.(leases := e.leases, byToken := e.byToken, fencing := e.fencing)
  }

  /** The attempts, and what the tasks say of their number. */
  ghost predicate SameCounts(s: Store, e: Store) {
    e.tasks.Keys == s.tasks.Keys && e.attempts == s.attempts
    && forall id :: id in s.tasks ==>
         e.tasks[id].attemptCount == s.tasks[id].attemptCount && e.tasks[id].poisonCount == s.tasks[id].poisonCount
  }

  // ------------------------------------------------------- writes to the tasks

  /** One task rewritten, with its links. */
  lemma TaskFrame(s: Store, e: Store, id: TaskId, task: Task)
    requires id in s.tasks && e == s.(tasks := s.tasks[id := task])
    requires task.dependsOn == s.tasks[id].dependsOn && task.parent == s.tasks[id].parent
    ensures Frame(s, e) && SameLeases(s, e) && e.attempts == s.attempts
    ensures task.attemptCount == s.tasks[id].attemptCount && task.poisonCount == s.tasks[id].poisonCount ==> SameCounts(s, e)
  {
  }

  lemma TransitionFrame(s: Store, id: TaskId, from: set<Status>, to: Status, patch: Patch, fence: Option<Token>, now: int)
    ensures var e := TransitionTask(s, id, from, to, patch, fence, now).0;
            && Frame(s, e) && SameLeases(s, e) && e.attempts == s.attempts
            && (patch.poisonCount.None? ==> SameCounts(s, e))
  {
    if TransitionTask(s, id, from, to, patch, fence, now).1.Ok? {
      var task := ApplyPatch(s.tasks[id], to, patch);
      TaskFrame(s, s.(tasks := s.tasks[id := task]), id, task);
    }
  }

  lemma InterruptQueuedFrame(s: Store, before: Instant)
    ensures var e := InterruptQueued(s, before).0;
            Frame(s, e) && SameLeases(s, e) && SameCounts(s, e)
  {
  }

  lemma ProgressFrame(s: Store, id: TaskId, progress: string, token: Token, now: int)
    ensures var e := UpdateProgress(s, id, progress, token, now).0;
            Frame(s, e) && SameLeases(s, e) && SameCounts(s, e)
  {
    if UpdateProgress(s, id, progress, token, now).1.Ok? {
      var task := s.tasks[id].(progress := Some(progress));
      TaskFrame(s, s.(tasks := s.tasks[id := task]), id, task);
    }
  }

  lemma DeadLetterFrame(s: Store, id: TaskId, reason: string, fence: Option<Token>, now: int)
    ensures var e := MarkDeadLettered(s, id, reason, fence, now).0;
            Frame(s, e) && SameLeases(s, e) && SameCounts(s, e)
  {
    if MarkDeadLettered(s, id, reason, fence, now).1.Ok? {
      var task := s.tasks[id].(deadLetter := Some((now, reason)));
      TaskFrame(s, s.(tasks := s.tasks[id := task]), id, task);
    }
  }

  // ---------------------------------------------------- writes to the attempts

  /** The attempts rewritten, each row under its own task. */
  lemma AttemptsFrame(s: Store, e: Store)
    requires e == s.(attempts := e.attempts)
    requires forall a :: a in e.attempts && a in s.attempts ==> e.attempts[a].taskId == s.attempts[a].taskId
    requires forall a :: a in e.attempts && a !in s.attempts ==> e.attempts[a].taskId in s.tasks
    ensures Frame(s, e) && SameLeases(s, e)
  {
  }

  lemma CreateAttemptFrame(s: Store, attemptId: AttemptId, id: TaskId, owner: string, clock: Option<int>)
    ensures var e := CreateAttempt(s, attemptId, id, owner, clock).0;
            Frame(s, e) && SameLeases(s, e)
  {
    if id in s.tasks {
      var task := s.tasks[id].(attemptCount := s.tasks[id].attemptCount + 1);
      var counted := CountAttempt(s, id);
      TaskFrame(s, counted, id, task);
      if clock.Some? {
        assert SameAttemptTasks(counted, CreateAttempt(s, attemptId, id, owner, clock).0);
      }
    }
  }

  lemma EndAttemptFrame(s: Store, attemptId: AttemptId, status: AttemptStatus, error: Option<string>,
                        fence: Option<Token>, now: int, clock: Option<int>)
    ensures var e := EndAttempt(s, attemptId, status, error, fence, now, clock).0;
            Frame(s, e) && SameLeases(s, e)
  {
    var e := EndAttempt(s, attemptId, status, error, fence, now, clock).0;
    if e != s {
      var rows := s.(attempts := e.attempts);
      AttemptsFrame(s, rows);
      var id := s.attempts[attemptId].taskId;
      if e != rows {
        TaskFrame(rows, e, id, e.tasks[id]);
      }
    }
  }

  /** Some running attempts were cancelled, and no other row was touched. */
  ghost predicate OnlyCancelled(rows: map<AttemptId, Attempt>, now: map<AttemptId, Attempt>) {
    && now.Keys == rows.Keys
    && forall a :: a in rows ==>
         now[a] == rows[a]
         || (&& rows[a].status == AttemptRunning && now[a].status == AttemptCancelled
             && now[a].taskId == rows[a].taskId && now[a].number == rows[a].number)
  }

  lemma InterruptCancels(rows: map<AttemptId, Attempt>, id: TaskId, stop: Option<Stop>, reason: string, now: int)
    ensures OnlyCancelled(rows, InterruptedRows(rows, id, stop, reason, now))
  {
  }

  /** The interrupt in one line, whether its clock answers or not. */
  lemma InterruptIs(s: Store, id: TaskId, reason: string, fence: Option<Token>, now: int, stop: Option<Stop>)
    ensures var e := InterruptTask(s, id, reason, fence, now, stop).0;
            e == s ||
            (&& id in s.tasks && OnlyCancelled(s.attempts, e.attempts)
             && e.tasks == s.tasks[id := s.tasks[id].(status := Interrupted, error := Some(reason))]
             && OnlyLeases(s.(tasks := e.tasks, attempts := e.attempts), e))
  {
    InterruptCancels(s.attempts, id, stop, reason, now);
  }

  lemma InterruptFrame(s: Store, id: TaskId, reason: string, fence: Option<Token>, now: int, stop: Option<Stop>)
    ensures Frame(s, InterruptTask(s, id, reason, fence, now, stop).0)
  {
    var e := InterruptTask(s, id, reason, fence, now, stop).0;
    InterruptIs(s, id, reason, fence, now, stop);
    if e != s {
      InterruptedFrame(s, e, id, s.tasks[id].(status := Interrupted, error := Some(reason)));
    }
  }

  lemma InterruptedFrame(s: Store, e: Store, id: TaskId, task: Task)
    requires id in s.tasks && OnlyCancelled(s.attempts, e.attempts) && e.tasks == s.tasks[id := task]
    requires task.dependsOn == s.tasks[id].dependsOn && task.parent == s.tasks[id].parent
    requires OnlyLeases(s.(tasks := e.tasks, attempts := e.attempts), e)
    ensures Frame(s, e)
  {
  }

  // ------------------------------------------------------ writes to the leases

  lemma LeasesFrame(s: Store, input: AcquireInput, token: Token, clock: Option<int>, ttlMs: int, now: int, at: int)
    ensures OnlyLeases(s, AcquireLease(s, input, token, clock).0)
    ensures OnlyLeases(s, RenewLease(s, token, ttlMs, now).0)
    ensures OnlyLeases(s, ReleaseLease(s, token).0)
    ensures OnlyLeases(s, ExpireStaleLeases(s, at).0)
  {
  }

  // ------------------------------------------------------------------- claims

  lemma ClaimedFrame(s: Store, e: Store, c: Claimed, q: Query, leaseTtlMs: int, env: Env)
    requires ClaimedExactly(s, e, c, q, leaseTtlMs, env)
    ensures Frame(s, e)
  {
  }

  lemma LeaseFailureFrame(s: Store, id: TaskId, q: Query, leaseTtlMs: int, env: Env)
    requires id in s.tasks && s.tasks[id].status == Queued && WroteAttempt(env)
    requires ClaimTask(s, id, q, leaseTtlMs, env).1.Err?
    ensures Frame(s, ClaimTask(s, id, q, leaseTtlMs, env).0)
  {
    UndoRestores(s, GaveUpAtLease(s, id, q, env), id);
    assert ClaimTask(s, id, q, leaseTtlMs, env).0 == Undo(CaptureOf(s, id), GaveUpAtLease(s, id, q, env), id);
  }

  lemma ClaimTaskFrame(s: Store, id: TaskId, q: Query, leaseTtlMs: int, env: Env)
    requires id in s.tasks && s.tasks[id].status == Queued
    ensures Frame(s, ClaimTask(s, id, q, leaseTtlMs, env).0)
  {
    if ClaimTask(s, id, q, leaseTtlMs, env).1.Ok? {
      SuccessfulClaim(s, id, q, leaseTtlMs, env);
      ClaimedFrame(s, ClaimTask(s, id, q, leaseTtlMs, env).0, ClaimTask(s, id, q, leaseTtlMs, env).1.value, q, leaseTtlMs, env);
    } else if WroteAttempt(env) {
      LeaseFailureFrame(s, id, q, leaseTtlMs, env);
    } else {
      FailureBeforeAttempt(s, id, q, leaseTtlMs, env);
    }
  }

  lemma EndingFrame(s: Store, mid: Store, ended: set<TaskId>)
    requires EndedExactly(s, mid, ended)
    ensures Frame(s, mid) && SameCounts(s, mid)
  {
  }

  lemma ClaimFrame(s: Store, q: Query, aging: Aging, leaseTtlMs: int, env: Env)
    requires WellOrdered(s) && aging.intervalMs > 0
    ensures Frame(s, ClaimNext(s, q, aging, leaseTtlMs, env).0)
  {
    var story := ClaimTakesFirstReady(s, q, aging, leaseTtlMs, env);
    EndingFrame(s, story.mid, story.ended);
    if story.id.Some? {
      ClaimTaskFrame(story.mid, story.id.value, q, leaseTtlMs, env);
    }
  }
}
