/**
 Claiming the next task: the aged order of the candidates, the walk that settles doomed
 dependents on its way to the first runnable task, and the claim of that task with the
 hand-written undo for a claim that fails half-way.
 */
module TaskClaim {
  import opened Wrappers
  import opened TaskModel

  // ------------------------------------------------------------------- aging

  datatype Aging = Aging(intervalMs: int, bonus: int, maxBonus: int)

  const DEFAULT_AGING_INTERVAL_MS := 30_000

  /** An interval that is not positive falls back to the default. */
  function ResolveAging(aging: Aging): (r: Aging)
    ensures r.intervalMs > 0
  {
    if aging.intervalMs > 0 then aging else aging.(intervalMs := DEFAULT_AGING_INTERVAL_MS)
  }

  function Min(a: int, b: int): int { if a < b then a else b }

  function EffectivePriority(priority: int, enqueuedAt: int, now: int, aging: Aging): int
    requires aging.intervalMs > 0
  {
    if aging.bonus == 0 then priority
    else
      var waited := if now < enqueuedAt then 0 else now - enqueuedAt;
      priority + Min(aging.maxBonus, (waited / aging.intervalMs) * aging.bonus)
  }

  // ------------------------------------------------------------ dependencies

  datatype Verdict = Ready | Blocked | Settle(to: Status, error: Option<string>)

  /** A dependency that can never complete: its row is gone, it failed, it was cancelled,
      or the queue gave up on it. */
  predicate Doomed(s: Store, dep: TaskId) {
    dep !in s.tasks || s.tasks[dep].status in {Failed, Cancelled} || s.tasks[dep].deadLetter.Some?
  }

  predicate Done(s: Store, dep: TaskId) {
    dep in s.tasks && s.tasks[dep].status == Completed && s.tasks[dep].deadLetter.None?
  }

  /** The first doomed dependency decides; otherwise any unfinished one blocks. */
  function Evaluate(s: Store, deps: seq<TaskId>, blocked: bool): Verdict
    decreases deps
  {
    if deps == [] then if blocked then Blocked else Ready
    else
      var dep := deps[0];
      if dep !in s.tasks || s.tasks[dep].status == Failed || s.tasks[dep].deadLetter.Some?
      then Settle(Failed, Some("dependency_failed: " + dep))
      else if s.tasks[dep].status == Cancelled then Settle(Cancelled, None)
      else Evaluate(s, deps[1..], blocked || s.tasks[dep].status != Completed)
  }

  function VerdictOf(s: Store, id: TaskId): Verdict
    requires id in s.tasks
  {
    Evaluate(s, s.tasks[id].dependsOn, false)
  }

  // -------------------------------------------------------------- candidates

  datatype Query = Query(scopesBusy: set<string>, kinds: Option<set<string>>, owner: string, now: int)

  predicate Eligible(s: Store, q: Query, id: TaskId) {
    id in s.tasks
    && s.tasks[id].status == Queued
    && s.tasks[id].scope !in q.scopesBusy
    && (q.kinds.Some? ==> s.tasks[id].kind in q.kinds.value)
    && s.tasks[id].availableAt <= q.now
  }

  function Candidates(s: Store, q: Query, order: seq<TaskId>): seq<TaskId> {
    if order == [] then []
    else (if Eligible(s, q, order[0]) then [order[0]] else []) + Candidates(s, q, order[1..])
  }

  function Rank(s: Store, q: Query, aging: Aging, id: TaskId): int
    requires id in s.tasks && aging.intervalMs > 0
  {
    EffectivePriority(s.tasks[id].priority, s.tasks[id].enqueuedAt, q.now, aging)
  }

  /** The comparator answers "less than zero" for (a, b). */
  predicate SortsBefore(s: Store, q: Query, aging: Aging, a: TaskId, b: TaskId)
    requires a in s.tasks && b in s.tasks && aging.intervalMs > 0
  {
    Rank(s, q, aging, a) > Rank(s, q, aging, b)
    || (Rank(s, q, aging, a) == Rank(s, q, aging, b) && s.tasks[a].enqueuedAt < s.tasks[b].enqueuedAt)
  }

  predicate AllKnown(s: Store, ids: seq<TaskId>) {
    forall id :: id in ids ==> id in s.tasks
  }

  function Insert(s: Store, q: Query, aging: Aging, id: TaskId, sorted: seq<TaskId>): (r: seq<TaskId>)
    requires id in s.tasks && AllKnown(s, sorted) && aging.intervalMs > 0
    ensures forall x :: x in r <==> x == id || x in sorted
  {
    if sorted == [] || !SortsBefore(s, q, aging, sorted[0], id) then [id] + sorted
    else [sorted[0]] + Insert(s, q, aging, id, sorted[1..])
  }

  /** The built-in sort, which is stable. */
  function StableSort(s: Store, q: Query, aging: Aging, ids: seq<TaskId>): (r: seq<TaskId>)
    requires AllKnown(s, ids) && aging.intervalMs > 0
    ensures forall x :: x in r <==> x in ids
  {
    if ids == [] then [] else Insert(s, q, aging, ids[0], StableSort(s, q, aging, ids[1..]))
  }

  lemma {:induction false} CandidatesAre(s: Store, q: Query, order: seq<TaskId>)
    ensures forall x :: x in Candidates(s, q, order) <==> x in order && Eligible(s, q, x)
  {
    if order != [] {
      CandidatesAre(s, q, order[1..]);
      assert order == [order[0]] + order[1..];
    }
  }

  function Schedule(s: Store, q: Query, aging: Aging): (r: seq<TaskId>)
    requires aging.intervalMs > 0
    ensures forall x :: x in r <==> x in s.order && Eligible(s, q, x)
  {
    CandidatesAre(s, q, s.order);
    StableSort(s, q, aging, Candidates(s, q, s.order))
  }

  // -------------------------------------------------------------------- walk

  /** Where a claim's host calls throw: in the n-th settle of the walk, or at one of the
      steps of the claim proper. */
  datatype Fault = NoFault | AtSettle(n: nat) | AtStart | AtAttemptId | AtAttemptClock | AtLeaseClock

  datatype Env = Env(now: int, attemptId: AttemptId, token: Token, fault: Fault)

  datatype Walked = Exhausted(end: Store) | Stopped(end: Store, error: Error) | Hit(end: Store, id: TaskId)

  function SettlePatch(v: Verdict, now: int): Patch
    requires v.Settle?
  {
    NO_PATCH.(finishedAt := Some(now), error := v.error)
  }

  /** `settled` counts the settles so far, for the fault at the n-th. */
  function Walk(s: Store, ids: seq<TaskId>, env: Env, settled: nat): Walked
    decreases ids
  {
    if ids == [] then Exhausted(s)
    else if ids[0] !in s.tasks then Stopped(s, NotFound)
    else match VerdictOf(s, ids[0])
      case Blocked => Walk(s, ids[1..], env, settled)
      case Ready =>
        // A candidate that is no longer queued lost its turn to another caller: skip it.
        if env.fault != AtStart && Started(s, ids[0], env).1 == Err(InvalidTransition)
        then Walk(s, ids[1..], env, settled)
        else Hit(s, ids[0])
      case Settle(to, error) =>
        if env.fault == AtSettle(settled) then Stopped(s, HostFault)
        else
          var (s', answer) := TransitionTask(s, ids[0], {Queued}, to,
                                SettlePatch(VerdictOf(s, ids[0]), env.now), None, env.now);
          match answer
          case Ok(_) => Walk(s', ids[1..], env, settled + 1)
          case Err(InvalidTransition) => Walk(s', ids[1..], env, settled + 1)
          case Err(e) => Stopped(s', e)
  }

  // ------------------------------------------------------------------- claim

  datatype Claimed = Claimed(id: TaskId, task: Task, attempt: Attempt, attemptId: AttemptId, lease: Lease)

  /** What a claim remembers before its first write. */
  datatype Capture = Capture(
    task: Option<(Status, Option<int>, nat)>,
    attempts: set<AttemptId>,
    fencing: nat,
    hadLease: bool)

  function CaptureOf(s: Store, id: TaskId): Capture {
    Capture(if id in s.tasks then Some((s.tasks[id].status, s.tasks[id].startedAt, s.tasks[id].attemptCount)) else None,
            s.attempts.Keys, s.fencing, id in s.leases)
  }

  /** What a failed claim does to the state `now` it gave up in. */
  function Undo(was: Capture, now: Store, id: TaskId): Store {
    var tasks :=
      if id in now.tasks && was.task.Some?
      then now.tasks[id := now.tasks[id].(status := was.task.value.0,
                                          startedAt := was.task.value.1,
                                          attemptCount := was.task.value.2)]
      else now.tasks;
    var attempts := map a | a in now.attempts && a in was.attempts :: now.attempts[a];
    var unleased := if was.hadLease then now else DropLease(now, id);
    Store(tasks, now.order, attempts, unleased.leases, unleased.byToken, now.events, now.eventIds,
          if now.fencing == was.fencing + 1 then was.fencing else now.fencing)
  }

  /** The host clock as a step of the claim reads it. */
  function Reading(env: Env, step: Fault): Option<int> {
    if env.fault == step then None else Some(env.now)
  }

  function StartPatch(env: Env): Patch {
    NO_PATCH.(startedAt := Some(env.now))
  }

  /** The state right after the transition to Running. */
  function Started(s: Store, id: TaskId, env: Env): (Store, Answer<Task>) {
    TransitionTask(s, id, {Queued}, Running, StartPatch(env), None, env.now)
  }

  function ClaimTask(s: Store, id: TaskId, q: Query, leaseTtlMs: int, env: Env): (Store, Answer<Claimed>) {
    var was := CaptureOf(s, id);
    if env.fault == AtStart then (Undo(was, s, id), Err(HostFault))
    else
      var (s1, started) := Started(s, id, env);
      match started
      case Err(e) => (Undo(was, s1, id), Err(e))
      case Ok(task) =>
        if env.fault == AtAttemptId then (Undo(was, s1, id), Err(HostFault))
        else
          var (s2, made) := CreateAttempt(s1, env.attemptId, id, q.owner, Reading(env, AtAttemptClock));
          match made
          case Err(e) => (Undo(was, s2, id), Err(e))
          case Ok(attempt) =>
            var (s3, lease) := AcquireLease(s2, AcquireInput(id, env.attemptId, q.owner, leaseTtlMs), env.token,
                                            Reading(env, AtLeaseClock));
            match lease
            case Err(e) => (Undo(was, s3, id), Err(e))
            case Ok(l) => (s3, Ok(Claimed(id, task, attempt, env.attemptId, l)))
  }

  function ClaimNext(s: Store, q: Query, aging: Aging, leaseTtlMs: int, env: Env): (Store, Answer<Option<Claimed>>)
    requires aging.intervalMs > 0
  {
    match Walk(s, Schedule(s, q, aging), env, 0)
    case Exhausted(end) => (end, Ok(None))
    case Stopped(end, error) => (end, Err(error))
    case Hit(end, id) =>
      var (s', answer) := ClaimTask(end, id, q, leaseTtlMs, env);
      match answer
      case Ok(c) => (s', Ok(Some(c)))
      case Err(e) => (s', Err(e))
  }
}
