/** Attempt accounting over whole runs. */
module TaskAccounts {
  import opened Wrappers
  import opened TaskModel
  import opened TaskClaim
  import opened ClaimProofs
  import opened TaskFrames
  import opened TaskRuns
  import opened TaskHistory

  type Rows = map<AttemptId, Attempt>

  ghost predicate Taken(rows: Rows, id: TaskId, n: nat) {
    exists a :: a in rows && rows[a].taskId == id && rows[a].number == n
  }

  /** The attempts of a task are numbered exactly 1..count, each number once. */
  ghost predicate Numbered(rows: Rows, id: TaskId, count: nat) {
    && (forall a :: a in rows && rows[a].taskId == id ==> 1 <= rows[a].number <= count)
    && (forall a, b :: a in rows && b in rows && rows[a].taskId == id && rows[b].taskId == id && a != b ==>
          rows[a].number != rows[b].number)
    && (forall n :: 1 <= n <= count ==> Taken(rows, id, n))
  }

  ghost function AbandonedOf(rows: Rows, id: TaskId): set<AttemptId> {
    set a | a in rows && rows[a].taskId == id && rows[a].status == Abandoned
  }

  ghost predicate Accounted(rows: Rows, id: TaskId, task: Task) {
    Numbered(rows, id, task.attemptCount) && task.poisonCount == |AbandonedOf(rows, id)|
  }

  /** Every task's attempts are numbered 1..attemptCount, its poison count is the number of its
      abandoned attempts, and every attempt row names a task that exists. */
  ghost predicate Accounts(s: Store) {
    && (forall id :: id in s.tasks ==> Accounted(s.attempts, id, s.tasks[id]))
    && (forall a :: a in s.attempts ==> s.attempts[a].taskId in s.tasks)
  }

  /** Ending this attempt writes that it was abandoned and then fails to count it. */
  predicate EndsUncounted(s: Store, attemptId: AttemptId, status: AttemptStatus, fence: Option<Token>, now: int,
                          clock: Option<int>)
  {
    && attemptId in s.attempts && s.attempts[attemptId].status == AttemptRunning
    && FenceOpen(s, s.attempts[attemptId].taskId, fence, now)
    && status == Abandoned && clock.None?
  }

  /** The guards a transition passes. */
  predicate Transits(s: Store, id: TaskId, from: set<Status>, to: Status, patch: Patch, fence: Option<Token>, now: int) {
    && patch.availableAt != Some(Unparsable) && id in s.tasks && FenceOpen(s, id, fence, now)
    && s.tasks[id].status in from && to in Successors(s.tasks[id].status)
  }

  /** What the accounting asks of a step: attempt ids that are not in use, a clock that answers
      where an attempt is counted, and no patch of the poison count. */
  predicate Careful(cfg: Config, s: Store, op: Op, now: int)
    requires Sound(cfg)
  {
    match op
    case NewAttempt(attemptId, id, _, fails) => id in s.tasks ==> attemptId !in s.attempts && !fails
    case FinishAttempt(attemptId, status, _, fence, fails) =>
      !EndsUncounted(s, attemptId, status, fence, now, Clock(fails, now))
    case Claim(q, env) =>
      WroteAttempt(env) && HitOf(Walk(s, Schedule(s, q, cfg.aging), env.(now := now), 0)).Some? ==>
        env.attemptId !in s.attempts
    case Transition(id, from, to, patch, fence) =>
      Transits(s, id, from, to, patch, fence, now) && patch.poisonCount.Some? ==>
        patch.poisonCount.value == s.tasks[id].poisonCount
    case _ => true
  }

  // ------------------------------------------------------------ attempt rows

  lemma AddRow(rows: Rows, a: AttemptId, row: Attempt, id: TaskId, count: nat)
    requires a !in rows && Numbered(rows, id, count)
    requires row.status == AttemptRunning && (row.taskId == id ==> row.number == count + 1)
    ensures Numbered(rows[a := row], id, if row.taskId == id then count + 1 else count)
    ensures AbandonedOf(rows[a := row], id) == AbandonedOf(rows, id)
  {
    var more := rows[a := row];
    var count' := if row.taskId == id then count + 1 else count;
    forall n: nat | 1 <= n <= count' ensures Taken(more, id, n) {
      if n <= count {
        assert Taken(rows, id, n);
        var b :| b in rows && rows[b].taskId == id && rows[b].number == n;
        assert more[b] == rows[b];
      } else {
        assert more[a].number == n;
      }
    }
  }

  /** Rows that keep their task and number, among them all rows of `id`, keep its numbering. */
  lemma KeepRows(rows: Rows, kept: Rows, id: TaskId, count: nat)
    requires Numbered(rows, id, count)
    requires forall a :: a in kept ==>
               a in rows && kept[a].taskId == rows[a].taskId && kept[a].number == rows[a].number
    requires forall a :: a in rows && rows[a].taskId == id ==> a in kept
    ensures Numbered(kept, id, count)
  {
    forall n: nat | 1 <= n <= count ensures Taken(kept, id, n) {
      assert Taken(rows, id, n);
      var b :| b in rows && rows[b].taskId == id && rows[b].number == n;
      assert kept[b].number == n;
    }
  }

  /** A row overwritten by one of another task or number leaves a number that no row has. */
  lemma OverwrittenNumber(rows: Rows, a: AttemptId, row: Attempt, count: nat, n: nat)
    requires a in rows && Numbered(rows, rows[a].taskId, count) && count <= n
    requires row.taskId == rows[a].taskId ==> row.number != rows[a].number
    ensures !Numbered(rows[a := row], rows[a].taskId, n)
  {
    assert !Taken(rows[a := row], rows[a].taskId, rows[a].number);
  }

  // --------------------------------------------------------------- operations

  lemma SameCountsKeepAccounts(s: Store, e: Store)
    requires SameCounts(s, e)
    ensures Accounts(e) <==> Accounts(s)
  {
    if Accounts(s) {
      forall id | id in e.tasks ensures Accounted(e.attempts, id, e.tasks[id]) {
        assert Accounted(s.attempts, id, s.tasks[id]);
      }
    }
    if Accounts(e) {
      forall id | id in s.tasks ensures Accounted(s.attempts, id, s.tasks[id]) {
        assert Accounted(e.attempts, id, e.tasks[id]);
      }
    }
  }

  lemma EndRow(rows: Rows, a: AttemptId, ended: Attempt, id: TaskId, count: nat)
    requires a in rows && rows[a].status == AttemptRunning && Numbered(rows, id, count)
    requires ended.taskId == rows[a].taskId && ended.number == rows[a].number
    ensures Numbered(rows[a := ended], id, count)
    ensures |AbandonedOf(rows[a := ended], id)|
            == |AbandonedOf(rows, id)| + if ended.status == Abandoned && ended.taskId == id then 1 else 0
  {
    KeepRows(rows, rows[a := ended], id, count);
    OneMoreAbandoned(rows, a, ended, id);
  }

  lemma OneMoreAbandoned(rows: Rows, a: AttemptId, ended: Attempt, id: TaskId)
    requires a in rows && rows[a].status != Abandoned && ended.taskId == rows[a].taskId
    ensures AbandonedOf(rows[a := ended], id)
            == if ended.status == Abandoned && ended.taskId == id then AbandonedOf(rows, id) + {a} else AbandonedOf(rows, id)
    ensures a !in AbandonedOf(rows, id)
  {
  }

  /** Ending an attempt: its row, and one more on its task's count if it was abandoned and the
      clock answered. */
  lemma EndAttemptIs(s: Store, attemptId: AttemptId, status: AttemptStatus, error: Option<string>,
                     fence: Option<Token>, now: int, clock: Option<int>)
    ensures var e := EndAttempt(s, attemptId, status, error, fence, now, clock).0;
            e == s ||
            (&& attemptId in s.attempts && s.attempts[attemptId].status == AttemptRunning
             && FenceOpen(s, s.attempts[attemptId].taskId, fence, now)
             && attemptId in e.attempts && e.tasks.Keys == s.tasks.Keys
             && var ended := e.attempts[attemptId];
                && e.attempts == s.attempts[attemptId := ended] && ended.status == status
                && ended.taskId == s.attempts[attemptId].taskId && ended.number == s.attempts[attemptId].number
                && forall id :: id in s.tasks ==>
                     && e.tasks[id].attemptCount == s.tasks[id].attemptCount
                     && e.tasks[id].poisonCount == s.tasks[id].poisonCount
                        + if status == Abandoned && ended.taskId == id && clock.Some? then 1 else 0)
    ensures EndAttempt(s, attemptId, status, error, fence, now, clock).0 == s ==>
              !EndsUncounted(s, attemptId, status, fence, now, clock)
  {
    var e := EndAttempt(s, attemptId, status, error, fence, now, clock).0;
    if EndsUncounted(s, attemptId, status, fence, now, clock) {
      assert e.attempts[attemptId].status == Abandoned;
    }
  }

  /** Ending an attempt keeps the accounts exactly when it does not give one up while the clock
      throws: then the attempt stays abandoned and its task is never charged for it. */
  lemma EndAttemptAccountsIff(s: Store, attemptId: AttemptId, status: AttemptStatus, error: Option<string>,
                              fence: Option<Token>, now: int, clock: Option<int>)
    requires Accounts(s)
    ensures Accounts(EndAttempt(s, attemptId, status, error, fence, now, clock).0)
            <==> !EndsUncounted(s, attemptId, status, fence, now, clock)
  {
    var e := EndAttempt(s, attemptId, status, error, fence, now, clock).0;
    EndAttemptIs(s, attemptId, status, error, fence, now, clock);
    if e != s {
      forall id | id in e.tasks
        ensures Accounted(e.attempts, id, e.tasks[id])
                <==> !(clock.None? && status == Abandoned && id == s.attempts[attemptId].taskId)
      {
        assert Accounted(s.attempts, id, s.tasks[id]);
        EndRow(s.attempts, attemptId, e.attempts[attemptId], id, s.tasks[id].attemptCount);
      }
    }
  }

  lemma CancelledRows(rows: Rows, now: Rows, id: TaskId, count: nat)
    requires OnlyCancelled(rows, now) && Numbered(rows, id, count)
    ensures Numbered(now, id, count) && AbandonedOf(now, id) == AbandonedOf(rows, id)
  {
    KeepRows(rows, now, id, count);
  }

  lemma InterruptKeeps(s: Store, id: TaskId, reason: string, fence: Option<Token>, now: int, stop: Option<Stop>)
    requires Accounts(s)
    ensures Accounts(InterruptTask(s, id, reason, fence, now, stop).0)
  {
    var e := InterruptTask(s, id, reason, fence, now, stop).0;
    InterruptIs(s, id, reason, fence, now, stop);
    if e != s {
      forall x | x in e.tasks ensures Accounted(e.attempts, x, e.tasks[x]) {
        assert Accounted(s.attempts, x, s.tasks[x]);
        CancelledRows(s.attempts, e.attempts, x, s.tasks[x].attemptCount);
      }
    }
  }

  lemma DeleteKeeps(s: Store, scope: string)
    requires Accounts(s)
    ensures Accounts(DeleteByScope(s, scope).0)
  {
    var e := DeleteByScope(s, scope).0;
    if e != s {
      forall x | x in e.tasks ensures Accounted(e.attempts, x, e.tasks[x]) {
        assert Accounted(s.attempts, x, s.tasks[x]);
        KeepRows(s.attempts, e.attempts, x, s.tasks[x].attemptCount);
        assert AbandonedOf(e.attempts, x) == AbandonedOf(s.attempts, x);
      }
    }
  }

  lemma CreateKeeps(s: Store, input: CreateInput, now: int)
    requires Accounts(s)
    ensures Accounts(CreateTask(s, input, now).0)
  {
    var e := CreateTask(s, input, now).0;
    if e != s {
      assert e.attempts == s.attempts;
      forall x | x in e.tasks ensures Accounted(e.attempts, x, e.tasks[x]) {
        if x != input.taskId {
          assert Accounted(s.attempts, x, s.tasks[x]);
        } else {
          assert AbandonedOf(s.attempts, x) == {};
        }
      }
    }
  }

  /** A new attempt of an existing task keeps the accounts exactly when its id is unused and the
      clock answers. */
  lemma NewAttemptAccountsIff(s: Store, attemptId: AttemptId, id: TaskId, owner: string, clock: Option<int>)
    requires Accounts(s) && id in s.tasks
    ensures Accounts(CreateAttempt(s, attemptId, id, owner, clock).0) <==> attemptId !in s.attempts && clock.Some?
  {
    var e := CreateAttempt(s, attemptId, id, owner, clock).0;
    var count := s.tasks[id].attemptCount;
    assert Accounted(s.attempts, id, s.tasks[id]);
    if clock.None? {
      assert !Taken(e.attempts, id, count + 1);
      assert !Accounted(e.attempts, id, e.tasks[id]);
    } else {
      AddedRowIff(s, e, attemptId, id, e.attempts[attemptId]);
    }
  }

  /** `e` is `s` with one attempt more counted, and its row written. */
  ghost predicate RowAdded(s: Store, e: Store, attemptId: AttemptId, id: TaskId, row: Attempt) {
    && id in s.tasks && e.tasks.Keys == s.tasks.Keys && e.attempts == s.attempts[attemptId := row]
    && row.taskId == id && row.number == s.tasks[id].attemptCount + 1 && row.status == AttemptRunning
    && forall x :: x in s.tasks ==>
         && e.tasks[x].attemptCount == s.tasks[x].attemptCount + (if x == id then 1 else 0)
         && e.tasks[x].poisonCount == s.tasks[x].poisonCount
  }

  lemma FreshRowFits(s: Store, e: Store, attemptId: AttemptId, id: TaskId, row: Attempt)
    requires Accounts(s) && RowAdded(s, e, attemptId, id, row) && attemptId !in s.attempts
    ensures Accounts(e)
  {
    forall x | x in e.tasks ensures Accounted(e.attempts, x, e.tasks[x]) {
      assert Accounted(s.attempts, x, s.tasks[x]);
      AddRow(s.attempts, attemptId, row, x, s.tasks[x].attemptCount);
    }
  }

  lemma UsedRowBreaks(s: Store, e: Store, attemptId: AttemptId, id: TaskId, row: Attempt)
    requires Accounts(s) && RowAdded(s, e, attemptId, id, row) && attemptId in s.attempts
    ensures !Accounts(e)
  {
    var lost := s.attempts[attemptId].taskId;
    assert Accounted(s.attempts, lost, s.tasks[lost]);
    OverwrittenNumber(s.attempts, attemptId, row, s.tasks[lost].attemptCount, e.tasks[lost].attemptCount);
    assert !Accounted(e.attempts, lost, e.tasks[lost]);
  }

  /** A counted attempt row is right exactly when its id was unused. */
  lemma AddedRowIff(s: Store, e: Store, attemptId: AttemptId, id: TaskId, row: Attempt)
    requires Accounts(s) && RowAdded(s, e, attemptId, id, row)
    ensures Accounts(e) <==> attemptId !in s.attempts
  {
    if attemptId in s.attempts {
      UsedRowBreaks(s, e, attemptId, id, row);
    } else {
      FreshRowFits(s, e, attemptId, id, row);
    }
  }

  // ------------------------------------------------------------------- claims

  lemma SuccessfulClaimAccountsIff(s: Store, id: TaskId, q: Query, leaseTtlMs: int, env: Env)
    requires id in s.tasks && s.tasks[id].status == Queued && Accounts(s)
    requires ClaimTask(s, id, q, leaseTtlMs, env).1.Ok?
    ensures Accounts(ClaimTask(s, id, q, leaseTtlMs, env).0) <==> env.attemptId !in s.attempts
  {
    var (e, answer) := ClaimTask(s, id, q, leaseTtlMs, env);
    SuccessfulClaim(s, id, q, leaseTtlMs, env);
    AddedRowIff(s, e, env.attemptId, id, answer.value.attempt);
  }

  lemma FailedClaimAccountsIff(s: Store, id: TaskId, q: Query, leaseTtlMs: int, env: Env)
    requires id in s.tasks && s.tasks[id].status == Queued && Accounts(s)
    requires ClaimTask(s, id, q, leaseTtlMs, env).1.Err?
    ensures Accounts(ClaimTask(s, id, q, leaseTtlMs, env).0) <==> !(WroteAttempt(env) && env.attemptId in s.attempts)
  {
    var e := ClaimTask(s, id, q, leaseTtlMs, env).0;
    FailedClaimRestores(s, id, q, leaseTtlMs, env);
    if WroteAttempt(env) && env.attemptId in s.attempts {
      OverwrittenRowStays(s, id, q, leaseTtlMs, env);
      assert !Accounted(e.attempts, id, e.tasks[id]);
    } else {
      assert e.attempts == s.attempts;
      SameCountsKeepAccounts(s, e);
    }
  }

  lemma ClaimAccountsIff(cfg: Config, s: Store, q: Query, env: Env)
    requires Sound(cfg) && WellOrdered(s) && Accounts(s)
    ensures Accounts(ClaimNext(s, q, cfg.aging, cfg.leaseTtlMs, env).0)
            <==> !(WroteAttempt(env) && HitOf(Walk(s, Schedule(s, q, cfg.aging), env, 0)).Some? && env.attemptId in s.attempts)
  {
    var story := ClaimTakesFirstReady(s, q, cfg.aging, cfg.leaseTtlMs, env);
    var mid := story.mid;
    EndingFrame(s, mid, story.ended);
    SameCountsKeepAccounts(s, mid);
    if story.id.Some? {
      if ClaimTask(mid, story.id.value, q, cfg.leaseTtlMs, env).1.Ok? {
        SuccessfulClaimAccountsIff(mid, story.id.value, q, cfg.leaseTtlMs, env);
        SuccessfulClaim(mid, story.id.value, q, cfg.leaseTtlMs, env);
      } else {
        FailedClaimAccountsIff(mid, story.id.value, q, cfg.leaseTtlMs, env);
      }
    }
  }

  // --------------------------------------------------------------- every step

  lemma TransitionAccountsIff(s: Store, id: TaskId, from: set<Status>, to: Status, patch: Patch,
                              fence: Option<Token>, now: int)
    requires Accounts(s)
    ensures Accounts(TransitionTask(s, id, from, to, patch, fence, now).0)
            <==> (Transits(s, id, from, to, patch, fence, now) && patch.poisonCount.Some? ==>
                    patch.poisonCount.value == s.tasks[id].poisonCount)
  {
    var e := TransitionTask(s, id, from, to, patch, fence, now).0;
    TransitionFrame(s, id, from, to, patch, fence, now);
    if Transits(s, id, from, to, patch, fence, now) {
      var task := ApplyPatch(s.tasks[id], to, patch);
      assert e == s.(tasks := s.tasks[id := task]) && task.attemptCount == s.tasks[id].attemptCount;
      if task.poisonCount == s.tasks[id].poisonCount {
        TaskFrame(s, e, id, task);
        SameCountsKeepAccounts(s, e);
      } else {
        assert Accounted(s.attempts, id, s.tasks[id]);
        assert !Accounted(e.attempts, id, e.tasks[id]);
      }
    }
  }

  lemma AppendKeepsCounts(s: Store, id: TaskId, batch: seq<Event>, token: Token, now: int)
    ensures SameCounts(s, AppendEvents(s, id, batch, token, now).0)
  {
  }

  lemma OtherStepsKeepCounts(cfg: Config, s: Store, op: Op, now: int)
    requires Sound(cfg) && WellOrdered(s)
    requires op.InterruptBefore? || op.Progress? || op.DeadLetter? || op.Append? || LeaseWrite(op)
    ensures SameCounts(s, Apply(cfg, s, op, now))
  {
    match op {
      case InterruptBefore(before) => InterruptQueuedFrame(s, before);
      case Progress(id, progress, token) => ProgressFrame(s, id, progress, token, now);
      case DeadLetter(id, reason, fence) => DeadLetterFrame(s, id, reason, fence, now);
      case Append(id, batch, token) => AppendKeepsCounts(s, id, batch, token, now);
      case _ => StepFrame(cfg, s, op, now);
    }
  }

  /** A step keeps the accounts exactly when it is careful. */
  lemma StepKeepsAccountsIff(cfg: Config, s: Store, op: Op, now: int)
    requires Sound(cfg) && WellOrdered(s) && Accounts(s)
    ensures Accounts(Apply(cfg, s, op, now)) <==> Careful(cfg, s, op, now)
  {
    match op {
      case Create(input) => CreateKeeps(s, input, now);
      case Delete(scope) => DeleteKeeps(s, scope);
      case Interrupt(id, reason, fence, stop) => InterruptKeeps(s, id, reason, fence, now, stop);
      case NewAttempt(attemptId, id, owner, fails) =>
        if id in s.tasks { NewAttemptAccountsIff(s, attemptId, id, owner, Clock(fails, now)); }
      case FinishAttempt(attemptId, status, error, fence, fails) =>
        EndAttemptAccountsIff(s, attemptId, status, error, fence, now, Clock(fails, now));
      case Claim(q, env) => ClaimAccountsIff(cfg, s, q, env.(now := now));
      case Transition(id, from, to, patch, fence) => TransitionAccountsIff(s, id, from, to, patch, fence, now);
      case _ =>
        OtherStepsKeepCounts(cfg, s, op, now);
        SameCountsKeepAccounts(s, Apply(cfg, s, op, now));
    }
  }

  // -------------------------------------------------------------- whole runs

  predicate CarefulRun(cfg: Config, w: World, run: seq<Entry>)
    requires Sound(cfg)
    decreases run
  {
    run == [] || (Careful(cfg, w.s, run[0].op, run[0].now) && CarefulRun(cfg, Next(cfg, w, run[0]), run[1..]))
  }

  /** The accounts are right in every state of the run. */
  ghost predicate AlwaysAccounts(cfg: Config, w: World, run: seq<Entry>)
    requires Sound(cfg)
    decreases run
  {
    Accounts(w.s) && (run != [] ==> AlwaysAccounts(cfg, Next(cfg, w, run[0]), run[1..]))
  }

  lemma {:induction false} RunKeepsAccountsIff(cfg: Config, w: World, run: seq<Entry>)
    requires Sound(cfg) && WellOrdered(w.s) && Accounts(w.s)
    ensures AlwaysAccounts(cfg, w, run) <==> CarefulRun(cfg, w, run)
    decreases run
  {
    if run != [] {
      var w' := Next(cfg, w, run[0]);
      KeepsOrder(cfg, w.s, run[0].op, run[0].now);
      StepKeepsAccountsIff(cfg, w.s, run[0].op, run[0].now);
      if Accounts(w'.s) {
        RunKeepsAccountsIff(cfg, w', run[1..]);
      } else {
        assert !AlwaysAccounts(cfg, w', run[1..]);
      }
    }
  }

  /** The attempts of each task are numbered exactly 1..attemptCount and its poison count is the
      number of its abandoned attempts, in every state of a run, exactly when every step of the
      run is careful: through first-terminal-wins ends, interrupts, deletions, and claims that
      fail anywhere. */
  lemma AttemptsAreConserved(cfg: Config, run: seq<Entry>)
    requires Sound(cfg)
    ensures AlwaysAccounts(cfg, FRESH_WORLD, run) <==> CarefulRun(cfg, FRESH_WORLD, run)
  {
    RunKeepsAccountsIff(cfg, FRESH_WORLD, run);
  }

  /** An attempt given up while the clock throws: it stays abandoned, its task is not charged, and
      ending it again changes nothing. */
  lemma UncountedForGood(s: Store, attemptId: AttemptId, fence: Option<Token>, now: int)
    requires Accounts(s) && EndsUncounted(s, attemptId, Abandoned, fence, now, None)
    ensures var e := EndAttempt(s, attemptId, Abandoned, None, fence, now, None).0;
            && e.attempts[attemptId].status == Abandoned && e.tasks == s.tasks && !Accounts(e)
            && forall status, error, later, clock ::
                 EndAttempt(e, attemptId, status, error, None, later, clock) == (e, Ok(e.attempts[attemptId]))
  {
    EndAttemptAccountsIff(s, attemptId, Abandoned, None, fence, now, None);
  }
}
