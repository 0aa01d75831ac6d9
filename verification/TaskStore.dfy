/** The in-memory task store: the class whose methods update its maps in place. */
module TaskStore {
  import opened Wrappers
  import opened TaskModel
  import opened TaskClaim
  import Spec = TaskModel
  import ClaimSpec = TaskClaim

  class MemoryTaskStore {
    var tasks: map<TaskId, Task>
    var order: seq<TaskId>
    var attempts: map<AttemptId, Attempt>
    var leases: map<TaskId, Lease>
    var leasesByToken: map<Token, TaskId>
    var events: map<TaskId, seq<Event>>
    var eventIds: map<TaskId, set<EventId>>
    var fencing: nat
    const aging: Aging
    const leaseTtlMs: int

    function View(): Store
      reads this
    {
      Store(tasks, order, attempts, leases, leasesByToken, events, eventIds, fencing)
    }

    constructor (aging: Aging, leaseTtlMs: int)
      ensures View() == EMPTY
      ensures this.aging == ResolveAging(aging) && this.leaseTtlMs == leaseTtlMs
    {
      tasks, order, attempts := map[], [], map[];
      leases, leasesByToken := map[], map[];
      events, eventIds := map[], map[];
      fencing := 0;
      this.aging := ResolveAging(aging);
      this.leaseTtlMs := leaseTtlMs;
    }

    // ----------------------------------------------------------------- tasks

    method CreateTask(input: CreateInput, now: int) returns (answer: Answer<Task>)
      modifies this
      ensures (View(), answer) == Spec.CreateTask(old(View()), input, now)
    {
      var id := input.taskId;
      if id in tasks {
        return Err(DuplicateTask);
      }
      if input.exclusive {
        var live := set x | x in tasks && tasks[x].scope == input.scope && !Terminal(tasks[x].status);
        if live != {} {
          return Err(ScopeBusy(live));
        }
      }
      if input.parent.Some? && input.parent.value !in tasks {
        return Err(UnknownParent);
      }
      var deps, i := input.dependsOn, 0;
      while i < |deps|
        invariant 0 <= i <= |deps|
        invariant BadDependency(View(), id, deps) == BadDependency(View(), id, deps[i..])
        invariant View() == old(View())
      {
        if deps[i] == id || deps[i] !in tasks {
          return Err(UnknownDependency(deps[i]));
        }
        i := i + 1;
      }
      if input.availableAt == Some(Unparsable) {
        return Err(InvalidTimestamp);
      }
      var task := NewTask(input, now);
      tasks := tasks[id := task];
      order := order + [id];
      return Ok(task);
    }

    /** Checks and deletes in one run: either every row of every task of the scope goes, or
        nothing does. */
    method DeleteByScope(scope: string) returns (answer: Answer<nat>)
      modifies this
      ensures (View(), answer) == Spec.DeleteByScope(old(View()), scope)
    {
      var doomed := set id | id in tasks && tasks[id].scope == scope;
      var busy := set id | id in doomed && Busy(tasks[id].status);
      assert busy == BusyIn(View(), scope);
      if busy != {} {
        return Err(ScopeBusy(busy));
      }
      ghost var was := View();
      var todo := doomed;
      PurgeNothing(was);
      assert doomed - todo == {};
      while todo != {}
        invariant todo <= doomed
        invariant View() == Purge(was, doomed - todo)
        decreases todo
      {
        var id :| id in todo;
        PurgeOneMore(was, doomed - todo, id);
        assert doomed - (todo - {id}) == doomed - todo + {id};
        DeleteRows(id);
        todo := todo - {id};
      }
      assert doomed - todo == doomed;
      return Ok(|doomed|);
    }

    /** Drops one task with its attempts, its lease and token, and its log. */
    method DeleteRows(id: TaskId)
      modifies this
      ensures View() == PurgeRows(old(View()), id)
    {
      attempts := map a | a in attempts && attempts[a].taskId != id :: attempts[a];
      if id in leases {
        leasesByToken := leasesByToken - {leases[id].token};
      }
      leases := leases - {id};
      events := events - {id};
      eventIds := eventIds - {id};
      tasks := tasks - {id};
      order := Without(order, {id});
    }

    /** The row is marked before the clock is read for its end. */
    method CancelOne(a: AttemptId, reason: string, clock: Option<int>)
      requires a in attempts
      modifies this`attempts
      ensures attempts == old(attempts)[a := Cancelling(old(attempts)[a], reason, clock)]
    {
      attempts := attempts[a := attempts[a].(status := AttemptCancelled, error := Some(reason))];
      if clock.Some? {
        attempts := attempts[a := attempts[a].(endedAt := clock)];
      }
    }

    /** Cancels the running attempts one by one, reading the clock for each. `readings` is how often
        the clock still answers, if it is about to throw; in which order the host lists the attempts
        is its own affair, so `stop` tells how far the loop had come. */
    method CancelEach(id: TaskId, reason: string, now: int, readings: Option<nat>) returns (ghost stop: Option<Stop>, threw: bool)
      modifies this`attempts
      ensures threw <==> Stops(old(attempts), id, stop)
      ensures attempts == InterruptedRows(old(attempts), id, stop, reason, now)
      ensures threw ==> readings.Some? && |RunningOf(old(attempts), id) * stop.value.done| == readings.value
      ensures !threw && readings.Some? ==> |RunningOf(old(attempts), id)| <= readings.value
    {
      ghost var was := attempts;
      var todo, read := attempts.Keys, 0;
      NothingCancelled(was, id, reason, now);
      while todo != {}
        invariant todo <= was.Keys && CancelledBut(was, attempts, id, todo, reason, now)
        invariant read == |RunningOf(was, id) - todo| && (readings.Some? ==> read <= readings.value)
        decreases todo
      {
        var a :| a in todo;
        OneMoreCancelled(was, attempts, id, todo, a, reason, now);
        if attempts[a].taskId == id && attempts[a].status == AttemptRunning {
          if readings.Some? && read == readings.value {
            CancelOne(a, reason, None);
            return Some(Stop(RunningOf(was, id) - todo, a)), true;
          }
          CancelOne(a, reason, Some(now));
          read := read + 1;
        }
        todo := todo - {a};
      }
      assert RunningOf(was, id) - todo == RunningOf(was, id);
      return None, false;
    }

    method InterruptTask(id: TaskId, reason: string, token: Option<Token>, now: int, readings: Option<nat>)
      returns (answer: Answer<bool>, ghost stop: Option<Stop>)
      modifies this
      ensures (View(), answer) == Spec.InterruptTask(old(View()), id, reason, token, now, stop)
      ensures stop.Some? ==> readings.Some? && |RunningOf(old(attempts), id) * stop.value.done| == readings.value
      ensures readings.Some? && answer == Ok(true) ==> |RunningOf(old(attempts), id)| <= readings.value
    {
      if token.Some? {
        var held := IsCurrent(id, token.value, now);
        if !held {
          return Err(LeaseLost), None;
        }
      }
      if id !in tasks || tasks[id].status !in {Queued, Running} {
        return Ok(false), None;
      }
      tasks := tasks[id := tasks[id].(status := Interrupted, error := Some(reason))];
      var at, threw := CancelEach(id, reason, now, readings);
      if threw {
        return Err(HostFault), at;
      }
      if id in leases {
        leasesByToken := leasesByToken - {leases[id].token};
        leases := leases - {id};
      }
      return Ok(true), None;
    }

    method InterruptEach(instant: int) returns (count: nat)
      modifies this`tasks
      ensures tasks == InterruptAll(old(View()), QueuedBefore(old(View()), instant)).tasks
      ensures count == |QueuedBefore(old(View()), instant)|
    {
      ghost var was := tasks;
      ghost var hit := {};
      var todo := tasks.Keys;
      count := 0;
      while todo != {}
        invariant todo <= was.Keys && tasks.Keys == was.Keys && count == |hit|
        invariant forall x :: x in hit <==> x in was && x !in todo && QueuedBy(was[x], instant)
        invariant forall x :: x in was ==> tasks[x] == if x in hit then ManuallyInterrupted(was[x]) else was[x]
        decreases todo
      {
        var id :| id in todo;
        todo := todo - {id};
        if QueuedBy(tasks[id], instant) {
          tasks := tasks[id := ManuallyInterrupted(tasks[id])];
          count := count + 1;
          hit := hit + {id};
        }
      }
      assert hit == QueuedBefore(old(View()), instant);
    }

    method InterruptQueued(before: Instant) returns (answer: Answer<nat>)
      modifies this
      ensures (View(), answer) == Spec.InterruptQueued(old(View()), before)
    {
      if before == Unparsable {
        return Err(InvalidTimestamp);
      }
      var count := InterruptEach(before.ms);
      return Ok(count);
    }

    method TransitionTask(id: TaskId, from: set<Status>, to: Status, patch: Patch, token: Option<Token>, now: int)
      returns (answer: Answer<Task>)
      modifies this
      ensures (View(), answer) == Spec.TransitionTask(old(View()), id, from, to, patch, token, now)
    {
      if patch.availableAt == Some(Unparsable) {
        return Err(InvalidTimestamp);
      }
      if id !in tasks {
        return Err(NotFound);
      }
      if token.Some? {
        var held := IsCurrent(id, token.value, now);
        if !held {
          return Err(LeaseLost);
        }
      }
      var task := tasks[id];
      if task.status !in from || to !in Successors(task.status) {
        return Err(InvalidTransition);
      }
      task := task.(status := to);
      task := task.(startedAt := if patch.startedAt.Some? then patch.startedAt else task.startedAt);
      task := task.(finishedAt := if patch.finishedAt.Some? then patch.finishedAt else task.finishedAt);
      task := task.(error := if patch.error.Some? then patch.error else task.error);
      task := task.(availableAt := if patch.availableAt.Some? then patch.availableAt.value.ms else task.availableAt);
      task := task.(priority := patch.priority.GetOr(task.priority));
      task := task.(poisonCount := patch.poisonCount.GetOr(task.poisonCount));
      task := task.(payload := patch.payload.GetOr(task.payload));
      tasks := tasks[id := task];
      return Ok(task);
    }

    method UpdateProgress(id: TaskId, progress: string, token: Token, now: int) returns (answer: Answer<Task>)
      modifies this
      ensures (View(), answer) == Spec.UpdateProgress(old(View()), id, progress, token, now)
    {
      if id !in tasks {
        return Err(NotFound);
      }
      var held := IsCurrent(id, token, now);
      if !held {
        return Err(LeaseLost);
      }
      tasks := tasks[id := tasks[id].(progress := Some(progress))];
      return Ok(tasks[id]);
    }

    method MarkDeadLettered(id: TaskId, reason: string, token: Option<Token>, now: int) returns (answer: Answer<Task>)
      modifies this
      ensures (View(), answer) == Spec.MarkDeadLettered(old(View()), id, reason, token, now)
    {
      if id !in tasks {
        return Err(NotFound);
      }
      if token.Some? {
        var held := IsCurrent(id, token.value, now);
        if !held {
          return Err(LeaseLost);
        }
      }
      tasks := tasks[id := tasks[id].(deadLetter := Some((now, reason)))];
      return Ok(tasks[id]);
    }

    // -------------------------------------------------------------- attempts

    method CreateAttempt(attemptId: AttemptId, id: TaskId, owner: string, clock: Option<int>)
      returns (answer: Answer<Attempt>)
      modifies this
      ensures (View(), answer) == Spec.CreateAttempt(old(View()), attemptId, id, owner, clock)
    {
      if id !in tasks {
        return Err(NotFound);
      }
      var count := tasks[id].attemptCount + 1;
      tasks := tasks[id := tasks[id].(attemptCount := count)];
      if clock.None? {
        return Err(HostFault);
      }
      var attempt := Attempt(id, count, AttemptRunning, owner, clock.value, None, None);
      attempts := attempts[attemptId := attempt];
      return Ok(attempt);
    }

    /** The first terminal status wins; an abandoned attempt is counted against its task. */
    method EndAttempt(attemptId: AttemptId, status: AttemptStatus, error: Option<string>, token: Option<Token>, now: int,
                      clock: Option<int>)
      returns (answer: Answer<Attempt>)
      modifies this
      ensures (View(), answer) == Spec.EndAttempt(old(View()), attemptId, status, error, token, now, clock)
    {
      if attemptId !in attempts {
        return Err(NotFound);
      }
      var attempt := attempts[attemptId];
      if token.Some? {
        var held := IsCurrent(attempt.taskId, token.value, now);
        if !held {
          return Err(LeaseLost);
        }
      }
      if attempt.status != AttemptRunning {
        return Ok(attempt);
      }
      attempt := attempt.(status := status);
      attempts := attempts[attemptId := attempt];
      if clock.None? {
        return Err(HostFault);
      }
      attempt := attempt.(endedAt := clock);
      if error.Some? {
        attempt := attempt.(error := error);
      }
      assert attempts[attemptId := attempt] == old(attempts)[attemptId := attempt];
      attempts := attempts[attemptId := attempt];
      if status == Abandoned && attempt.taskId in tasks {
        var task := tasks[attempt.taskId];
        tasks := tasks[attempt.taskId := task.(poisonCount := task.poisonCount + 1)];
      }
      return Ok(attempt);
    }

    // ---------------------------------------------------------------- leases

    method IsCurrent(id: TaskId, token: Token, now: int) returns (held: bool)
      ensures held <==> Current(View(), id, token, now)
    {
      held := id in leases && leases[id].token == token && now < leases[id].expiresAt;
    }

    method AcquireLease(input: AcquireInput, token: Token, clock: Option<int>) returns (answer: Answer<Lease>)
      modifies this
      ensures (View(), answer) == Spec.AcquireLease(old(View()), input, token, clock)
    {
      if input.taskId in leases {
        leasesByToken := leasesByToken - {leases[input.taskId].token};
      }
      fencing := fencing + 1;
      if clock.None? {
        return Err(HostFault);
      }
      if !HasIsoForm(clock.value + input.ttlMs) {
        return Err(InvalidDate);
      }
      var lease := Lease(input.taskId, input.attemptId, input.owner, token, fencing, clock.value + input.ttlMs);
      leases := leases[input.taskId := lease];
      leasesByToken := leasesByToken[token := input.taskId];
      return Ok(lease);
    }

    method RenewLease(token: Token, ttlMs: int, now: int) returns (answer: Answer<Lease>)
      modifies this
      ensures (View(), answer) == Spec.RenewLease(old(View()), token, ttlMs, now)
    {
      if token !in leasesByToken || leasesByToken[token] !in leases || leases[leasesByToken[token]].token != token {
        return Err(LeaseLost);
      }
      var id := leasesByToken[token];
      if leases[id].expiresAt <= now {
        return Err(LeaseLost);
      }
      if !HasIsoForm(now + ttlMs) {
        return Err(InvalidDate);
      }
      leases := leases[id := leases[id].(expiresAt := now + ttlMs)];
      return Ok(leases[id]);
    }

    method ReleaseLease(token: Token) returns (answer: Answer<()>)
      modifies this
      ensures (View(), answer) == Spec.ReleaseLease(old(View()), token)
    {
      if token !in leasesByToken || leasesByToken[token] !in leases || leases[leasesByToken[token]].token != token {
        return Err(LeaseLost);
      }
      var lease := leases[leasesByToken[token]];
      leases := leases - {lease.taskId};
      leasesByToken := leasesByToken - {lease.token};
      return Ok(());
    }

    method ExpireStaleLeases(at: int) returns (expired: set<Lease>)
      modifies this
      ensures (View(), expired) == Spec.ExpireStaleLeases(old(View()), at)
    {
      var stale := set id | id in leases && leases[id].expiresAt <= at;
      expired := set id | id in stale :: leases[id];
      ghost var was := View();
      var todo := stale;
      while todo != {}
        invariant todo <= stale
        invariant leases == was.leases - (stale - todo)
        invariant leasesByToken == was.byToken - TokensOf(was, stale - todo)
        invariant View() == was.(leases := leases, byToken := leasesByToken)
        decreases todo
      {
        var id :| id in todo;
        assert leases[id] == was.leases[id];
        assert stale - (todo - {id}) == stale - todo + {id};
        TokensOfOneMore(was, stale - todo, id);
        leasesByToken := leasesByToken - {leases[id].token};
        leases := leases - {id};
        todo := todo - {id};
      }
      assert stale - todo == stale;
    }

    // ---------------------------------------------------------------- events

    /** The batch is checked against itself as well as against the log. */
    method Validate(log: seq<Event>, ids: set<EventId>, batch: seq<Event>) returns (fits: bool)
      ensures fits <==> Appendable(LastSeq(log), ids, batch)
    {
      var last := if log == [] then -1 else log[|log| - 1].seqNo;
      var incoming: set<EventId>, i := {}, 0;
      assert batch[0..] == batch && ids + incoming == ids;
      while i < |batch|
        invariant 0 <= i <= |batch|
        invariant Appendable(LastSeq(log), ids, batch) == Appendable(last, ids + incoming, batch[i..])
      {
        if batch[i].seqNo <= last {
          return false;
        }
        if batch[i].id in ids || batch[i].id in incoming {
          return false;
        }
        assert ids + incoming + {batch[i].id} == ids + (incoming + {batch[i].id});
        incoming := incoming + {batch[i].id};
        last := batch[i].seqNo;
        i := i + 1;
      }
      return true;
    }

    /** The log and its ids with the batch pushed, event by event. */
    method Push(log0: seq<Event>, ids0: set<EventId>, batch: seq<Event>) returns (log: seq<Event>, ids: set<EventId>)
      ensures log == log0 + batch && ids == ids0 + IdsOf(batch)
    {
      log, ids := log0, ids0;
      var i := 0;
      while i < |batch|
        invariant 0 <= i <= |batch|
        invariant log == log0 + batch[..i]
        invariant ids == ids0 + IdsOf(batch[..i])
      {
        log := log + [batch[i]];
        ids := ids + {batch[i].id};
        assert batch[..i + 1] == batch[..i] + [batch[i]];
        IdsOfOneMore(batch, i);
        i := i + 1;
      }
      assert batch[..i] == batch;
    }

    /** Validates the whole batch before it writes any of it. */
    method AppendEvents(id: TaskId, batch: seq<Event>, token: Token, now: int) returns (answer: Answer<()>)
      modifies this
      ensures (View(), answer) == Spec.AppendEvents(old(View()), id, batch, token, now)
    {
      var held := IsCurrent(id, token, now);
      if !held {
        return Err(LeaseLost);
      }
      if batch == [] {
        return Ok(());
      }
      var log := if id in events then events[id] else [];
      var ids := if id in eventIds then eventIds[id] else {};
      var fits := Validate(log, ids, batch);
      if !fits {
        return Err(SeqConflict);
      }
      log, ids := Push(log, ids, batch);
      events := events[id := log];
      eventIds := eventIds[id := ids];
      return Ok(());
    }

    method ListEvents(id: TaskId, afterSeq: Option<int>, limit: Option<int>) returns (listed: seq<Event>)
      ensures listed == Spec.ListEvents(View(), id, afterSeq, limit)
    {
      listed := if id in events then events[id] else [];
      if afterSeq.Some? {
        listed := After(listed, afterSeq.value);
      }
      if limit.Some? {
        listed := Prefix(listed, limit.value);
      }
    }

    method NextSeq(id: TaskId) returns (next: int)
      ensures next == Spec.NextSeq(View(), id)
    {
      if id !in events || events[id] == [] {
        return 0;
      }
      next := events[id][|events[id]| - 1].seqNo + 1;
    }

    // ----------------------------------------------------------------- claim

    /** Puts back what a claim that could not be completed has written. */
    method UndoClaim(was: Capture, id: TaskId)
      modifies this
      ensures View() == Undo(was, old(View()), id)
    {
      if id in tasks && was.task.Some? {
        tasks := tasks[id := tasks[id].(status := was.task.value.0, startedAt := was.task.value.1,
                                        attemptCount := was.task.value.2)];
      }
      attempts := map a | a in attempts && a in was.attempts :: attempts[a];
      if !was.hadLease && id in leases {
        leasesByToken := leasesByToken - {leases[id].token};
        leases := leases - {id};
      }
      if fencing == was.fencing + 1 {
        fencing := was.fencing;
      }
    }

    method ClaimNext(q: Query, env: Env) returns (answer: Answer<Option<Claimed>>)
      requires aging.intervalMs > 0
      modifies this
      ensures (View(), answer) == ClaimSpec.ClaimNext(old(View()), q, aging, leaseTtlMs, env)
    {
      var ids := Schedule(View(), q, aging);
      var i, settled := 0, 0;
      while i < |ids|
        invariant 0 <= i <= |ids|
        invariant Walk(old(View()), ids, env, 0) == Walk(View(), ids[i..], env, settled)
      {
        var id := ids[i];
        assert ids[i..][0] == id && ids[i..][1..] == ids[i + 1..];
        i := i + 1;
        if id !in tasks {
          return Err(NotFound);
        }
        var verdict := VerdictOf(View(), id);
        if verdict.Settle? {
          if env.fault == AtSettle(settled) {
            return Err(HostFault);
          }
          var ended := TransitionTask(id, {Queued}, verdict.to, SettlePatch(verdict, env.now), None, env.now);
          if ended.Err? && ended.error != InvalidTransition {
            return Err(ended.error);
          }
          settled := settled + 1;
        } else if verdict.Ready? {
          var claimed := ClaimReady(id, q, env);
          if claimed.Ok? {
            return Ok(Some(claimed.value));
          }
          if claimed.error != InvalidTransition {
            return Err(claimed.error);
          }
        }
      }
      return Ok(None);
    }

    /** One claim, all or nothing. A candidate that is no longer queued is refused with
        InvalidTransition and left as it is. */
    method ClaimReady(id: TaskId, q: Query, env: Env) returns (answer: Answer<Claimed>)
      requires id in tasks
      modifies this
      ensures if env.fault != AtStart && Started(old(View()), id, env).1 == Err(InvalidTransition)
              then answer == Err(InvalidTransition) && View() == old(View())
              else (View(), answer) == ClaimSpec.ClaimTask(old(View()), id, q, leaseTtlMs, env)
                   && answer != Err(InvalidTransition)
    {
      var was := CaptureOf(View(), id);
      if env.fault == AtStart {
        UndoClaim(was, id);
        return Err(HostFault);
      }
      var started := TransitionTask(id, {Queued}, Running, StartPatch(env), None, env.now);
      if started.Err? {
        if started.error == InvalidTransition {
          return Err(InvalidTransition);
        }
        UndoClaim(was, id);
        return Err(started.error);
      }
      if env.fault == AtAttemptId {
        UndoClaim(was, id);
        return Err(HostFault);
      }
      var made := CreateAttempt(env.attemptId, id, q.owner, Reading(env, AtAttemptClock));
      if made.Err? {
        UndoClaim(was, id);
        return Err(made.error);
      }
      var leased := AcquireLease(AcquireInput(id, env.attemptId, q.owner, leaseTtlMs), env.token,
                                 Reading(env, AtLeaseClock));
      if leased.Err? {
        UndoClaim(was, id);
        return Err(leased.error);
      }
      return Ok(Claimed(id, started.value, made.value, env.attemptId, leased.value));
    }
  }

  // ------------------------------------------------------------ loop helpers

  lemma {:induction false} WithoutNothing(order: seq<TaskId>)
    ensures Without(order, {}) == order
  {
    if order != [] { WithoutNothing(order[1..]); }
  }

  lemma {:induction false} WithoutTwice(order: seq<TaskId>, a: set<TaskId>, b: set<TaskId>)
    ensures Without(Without(order, a), b) == Without(order, a + b)
  {
    if order != [] {
      WithoutTwice(order[1..], a, b);
      if order[0] in a {
        assert Without(order, a) == Without(order[1..], a);
      } else {
        assert Without(order, a) == [order[0]] + Without(order[1..], a);
      }
    }
  }

  /** The loop has passed all attempts but those in `todo`. */
  ghost predicate CancelledBut(was: map<AttemptId, Attempt>, rows: map<AttemptId, Attempt>, id: TaskId,
                               todo: set<AttemptId>, reason: string, now: int)
  {
    rows == CancelAttempts(was, RunningOf(was, id) - todo, reason, now)
  }

  lemma NothingCancelled(was: map<AttemptId, Attempt>, id: TaskId, reason: string, now: int)
    ensures CancelledBut(was, was, id, was.Keys, reason, now) && |RunningOf(was, id) - was.Keys| == 0
  {
    assert RunningOf(was, id) - was.Keys == {};
  }

  lemma OneMoreCancelled(was: map<AttemptId, Attempt>, rows: map<AttemptId, Attempt>, id: TaskId,
                         todo: set<AttemptId>, a: AttemptId, reason: string, now: int)
    requires CancelledBut(was, rows, id, todo, reason, now) && a in todo && a in was
    ensures a in rows && rows[a] == was[a]
    ensures a in RunningOf(was, id) ==>
              && CancelledBut(was, rows[a := Cancelling(was[a], reason, Some(now))], id, todo - {a}, reason, now)
              && |RunningOf(was, id) - (todo - {a})| == |RunningOf(was, id) - todo| + 1
              && var stop := Stop(RunningOf(was, id) - todo, a);
                 && rows[a := Cancelling(was[a], reason, None)] == CancelUpTo(was, id, stop, reason, now)
                 && RunningOf(was, id) * stop.done == stop.done
    ensures a !in RunningOf(was, id) ==>
              CancelledBut(was, rows, id, todo - {a}, reason, now) && RunningOf(was, id) - (todo - {a}) == RunningOf(was, id) - todo
  {
    var done := RunningOf(was, id) - todo;
    assert RunningOf(was, id) * done == done;
    if a in RunningOf(was, id) {
      assert RunningOf(was, id) - (todo - {a}) == done + {a};
    } else {
      assert RunningOf(was, id) - (todo - {a}) == done;
    }
  }

  lemma TokensOfOneMore(s: Store, ids: set<TaskId>, id: TaskId)
    ensures TokensOf(s, ids + {id}) == TokensOf(s, ids) + (if id in s.leases then {s.leases[id].token} else {})
  {
  }

  lemma PurgeNothing(s: Store)
    ensures Purge(s, {}) == s
  {
    WithoutNothing(s.order);
    var p := Purge(s, {});
    assert p.attempts == s.attempts;
    assert TokensOf(s, {}) == {};
    assert p.tasks == s.tasks && p.leases == s.leases && p.byToken == s.byToken;
    assert p.events == s.events && p.eventIds == s.eventIds;
  }

  ghost function PurgeRows(s: Store, id: TaskId): Store {
    Store(
      s.tasks - {id},
      Without(s.order, {id}),
      map a | a in s.attempts && s.attempts[a].taskId != id :: s.attempts[a],
      s.leases - {id},
      s.byToken - (if id in s.leases then {s.leases[id].token} else {}),
      s.events - {id},
      s.eventIds - {id},
      s.fencing)
  }

  lemma PurgeOneMore(s: Store, dead: set<TaskId>, id: TaskId)
    requires id !in dead
    ensures Purge(s, dead + {id}) == PurgeRows(Purge(s, dead), id)
  {
    WithoutTwice(s.order, dead, {id});
    PurgeTokens(s, dead, id);
    PurgeMaps(s, dead, id);
  }

  lemma PurgeTokens(s: Store, dead: set<TaskId>, id: TaskId)
    requires id !in dead
    ensures Purge(s, dead + {id}).byToken == PurgeRows(Purge(s, dead), id).byToken
  {
    TokensOfOneMore(s, dead, id);
  }

  lemma PurgeMaps(s: Store, dead: set<TaskId>, id: TaskId)
    ensures var p, q := PurgeRows(Purge(s, dead), id), Purge(s, dead + {id});
            q.tasks == p.tasks && q.leases == p.leases && q.events == p.events && q.eventIds == p.eventIds
            && q.attempts == p.attempts
  {
    assert forall m: map<TaskId, Lease> :: m - (dead + {id}) == m - dead - {id};
  }

  lemma IdsOfOneMore(batch: seq<Event>, i: nat)
    requires i < |batch|
    ensures IdsOf(batch[..i + 1]) == IdsOf(batch[..i]) + {batch[i].id}
  {
    forall x ensures x in IdsOf(batch[..i + 1]) <==> x in IdsOf(batch[..i]) + {batch[i].id} {
      if x in IdsOf(batch[..i]) {
        var k :| 0 <= k < i && batch[..i][k].id == x;
        assert batch[..i + 1][k].id == x;
      }
      if x == batch[i].id {
        assert batch[..i + 1][i].id == x;
      }
      if x in IdsOf(batch[..i + 1]) && x != batch[i].id {
        var k :| 0 <= k < i + 1 && batch[..i + 1][k].id == x;
        assert batch[..i][k].id == x;
      }
    }
  }
}
