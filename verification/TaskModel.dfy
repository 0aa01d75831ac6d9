/**
 The durable state of the in-memory task store and, for every operation that is one
 uninterrupted step, the function from the old state to the new state and the answer.

 Instants are whole milliseconds. Ids and lease tokens are strings.
 */
module TaskModel {
  import opened Wrappers

  type TaskId = string
  type AttemptId = string
  type Token = string
  type EventId = string

  // ---------------------------------------------------------------- statuses

  datatype Status = Queued | Running | WaitingApproval | Interrupted | Completed | Failed | Cancelled

  /** The transition table. There is no edge from Running back to Queued. */
  function Successors(from: Status): set<Status> {
    match from
    case Queued => {Running, Cancelled, Failed, Interrupted}
    case Interrupted => {Queued, Cancelled}
    case Running => {Interrupted, WaitingApproval, Completed, Failed, Cancelled}
    case WaitingApproval => {Running, Queued, Completed, Failed, Cancelled}
    case Completed => {}
    case Failed => {}
    case Cancelled => {}
  }

  predicate Terminal(status: Status) {
    Successors(status) == {}
  }

  /** The statuses that make a scope undeletable. */
  predicate Busy(status: Status) {
    status in {Running, WaitingApproval, Interrupted}
  }

  // ----------------------------------------------------------------- records

  datatype Task = Task(
    kind: string,
    scope: string,
    status: Status,
    priority: int,
    enqueuedAt: int,
    availableAt: int,
    startedAt: Option<int>,
    finishedAt: Option<int>,
    error: Option<string>,
    payload: string,
    progress: Option<string>,
    parent: Option<TaskId>,
    dependsOn: seq<TaskId>,
    attemptCount: nat,
    poisonCount: int,
    deadLetter: Option<(int, string)>)

  datatype AttemptStatus = AttemptRunning | AttemptCompleted | AttemptFailed | Abandoned | AttemptCancelled

  datatype Attempt = Attempt(
    taskId: TaskId,
    number: nat,
    status: AttemptStatus,
    owner: string,
    startedAt: int,
    endedAt: Option<int>,
    error: Option<string>)

  datatype Lease = Lease(
    taskId: TaskId,
    attemptId: AttemptId,
    owner: string,
    token: Token,
    fencing: nat,
    expiresAt: int)

  datatype Event = Event(id: EventId, seqNo: int, body: string)

  /** The fields of the store: `order` is the insertion order of the task map. */
  datatype Store = Store(
    tasks: map<TaskId, Task>,
    order: seq<TaskId>,
    attempts: map<AttemptId, Attempt>,
    leases: map<TaskId, Lease>,
    byToken: map<Token, TaskId>,
    events: map<TaskId, seq<Event>>,
    eventIds: map<TaskId, set<EventId>>,
    fencing: nat)

  const EMPTY := Store(map[], [], map[], map[], map[], map[], map[], 0)

  datatype Error =
    | DuplicateTask
    | ScopeBusy(busy: set<TaskId>)
    | UnknownParent
    | UnknownDependency(dependency: TaskId)
    | NotFound
    | LeaseLost
    | InvalidTransition
    | SeqConflict
    | InvalidTimestamp
    | InvalidDate
    | HostFault

  type Answer<+T> = Result<T, Error>

  /** An instant given as text: it parses to milliseconds, or it does not parse. */
  datatype Instant = At(ms: int) | Unparsable

  /** Milliseconds beyond this on either side have no ISO form, and asking for one throws. */
  const MAX_DATE_MS := 8_640_000_000_000_000

  predicate HasIsoForm(ms: int) {
    -MAX_DATE_MS <= ms <= MAX_DATE_MS
  }

  // ------------------------------------------------------------------ leases

  /** The fencing check: `token` is the task's present lease, and it has not expired. */
  predicate Current(s: Store, id: TaskId, token: Token, now: int) {
    id in s.leases && s.leases[id].token == token && now < s.leases[id].expiresAt
  }

  /** A fenced write without a token is not checked. */
  predicate FenceOpen(s: Store, id: TaskId, token: Option<Token>, now: int) {
    token.Some? ==> Current(s, id, token.value, now)
  }

  /** The lease a token resolves to through the reverse index. */
  function ByToken(s: Store, token: Token): Option<Lease> {
    if token in s.byToken && s.byToken[token] in s.leases && s.leases[s.byToken[token]].token == token
    then Some(s.leases[s.byToken[token]])
    else None
  }

  function DropLease(s: Store, id: TaskId): Store {
    if id in s.leases
    then s.(leases := s.leases - {id}, byToken := s.byToken - {s.leases[id].token})
    else s
  }

  datatype AcquireInput = AcquireInput(taskId: TaskId, attemptId: AttemptId, owner: string, ttlMs: int)

  /** Replaces whatever lease the task has. The expiry is computed after the old token is
      dropped and the counter drawn, so a clock that throws (`None`) or an expiry with no ISO
      form stops it half-way. */
  function AcquireLease(s: Store, input: AcquireInput, token: Token, clock: Option<int>): (Store, Answer<Lease>) {
    var drawn := DrawFencing(s, input.taskId);
    if clock.None? then (drawn, Err(HostFault))
    else if !HasIsoForm(clock.value + input.ttlMs) then (drawn, Err(InvalidDate))
    else
      var lease := Lease(input.taskId, input.attemptId, input.owner, token, drawn.fencing, clock.value + input.ttlMs);
      (drawn.(leases := drawn.leases[input.taskId := lease], byToken := drawn.byToken[token := input.taskId]),
       Ok(lease))
  }

  /** The part of an acquisition that precedes the expiry. */
  function DrawFencing(s: Store, id: TaskId): Store {
    s.(byToken := if id in s.leases then s.byToken - {s.leases[id].token} else s.byToken,
       fencing := s.fencing + 1)
  }

  function RenewLease(s: Store, token: Token, ttlMs: int, now: int): (Store, Answer<Lease>) {
    match ByToken(s, token)
    case None => (s, Err(LeaseLost))
    case Some(lease) =>
      if lease.expiresAt <= now then (s, Err(LeaseLost))
      else if !HasIsoForm(now + ttlMs) then (s, Err(InvalidDate))
      else
        var renewed := lease.(expiresAt := now + ttlMs);
        (s.(leases := s.leases[s.byToken[token] := renewed]), Ok(renewed))
  }

  function ReleaseLease(s: Store, token: Token): (Store, Answer<()>) {
    match ByToken(s, token)
    case None => (s, Err(LeaseLost))
    case Some(lease) =>
      (s.(leases := s.leases - {lease.taskId}, byToken := s.byToken - {lease.token}), Ok(()))
  }

  function StaleTasks(s: Store, at: int): set<TaskId> {
    set id | id in s.leases && s.leases[id].expiresAt <= at
  }

  function TokensOf(s: Store, ids: set<TaskId>): set<Token> {
    set id | id in ids && id in s.leases :: s.leases[id].token
  }

  function ExpireStaleLeases(s: Store, at: int): (Store, set<Lease>) {
    var stale := StaleTasks(s, at);
    (s.(leases := s.leases - stale, byToken := s.byToken - TokensOf(s, stale)),
     set id | id in stale :: s.leases[id])
  }

  // ------------------------------------------------------------------- tasks

  datatype CreateInput = CreateInput(
    taskId: TaskId,
    kind: string,
    scope: string,
    exclusive: bool,
    priority: int,
    availableAt: Option<Instant>,
    payload: string,
    parent: Option<TaskId>,
    dependsOn: seq<TaskId>)

  function UnfinishedIn(s: Store, scope: string): set<TaskId> {
    set id | id in s.tasks && s.tasks[id].scope == scope && !Terminal(s.tasks[id].status)
  }

  /** The first dependency that is the task itself or names no task. */
  function BadDependency(s: Store, self: TaskId, deps: seq<TaskId>): Option<TaskId> {
    if deps == [] then None
    else if deps[0] == self || deps[0] !in s.tasks then Some(deps[0])
    else BadDependency(s, self, deps[1..])
  }

  function NewTask(input: CreateInput, now: int): Task
    requires input.availableAt != Some(Unparsable)
  {
    Task(input.kind, input.scope, Queued, input.priority, now,
         if input.availableAt.Some? then input.availableAt.value.ms else now,
         None, None, None, input.payload, None, input.parent, input.dependsOn, 0, 0, None)
  }

  function CreateTask(s: Store, input: CreateInput, now: int): (Store, Answer<Task>) {
    var id := input.taskId;
    if id in s.tasks then (s, Err(DuplicateTask))
    else if input.exclusive && UnfinishedIn(s, input.scope) != {}
    then (s, Err(ScopeBusy(UnfinishedIn(s, input.scope))))
    else if input.parent.Some? && input.parent.value !in s.tasks then (s, Err(UnknownParent))
    else match BadDependency(s, id, input.dependsOn)
      case Some(d) => (s, Err(UnknownDependency(d)))
      case None =>
        if input.availableAt == Some(Unparsable) then (s, Err(InvalidTimestamp))
        else
          var task := NewTask(input, now);
          (s.(tasks := s.tasks[id := task], order := s.order + [id]), Ok(task))
  }

  function InScope(s: Store, scope: string): set<TaskId> {
    set id | id in s.tasks && s.tasks[id].scope == scope
  }

  function BusyIn(s: Store, scope: string): set<TaskId> {
    set id | id in s.tasks && s.tasks[id].scope == scope && Busy(s.tasks[id].status)
  }

  function Without(order: seq<TaskId>, dead: set<TaskId>): (r: seq<TaskId>)
    ensures forall x :: x in r <==> x in order && x !in dead
  {
    if order == [] then []
    else (if order[0] in dead then [] else [order[0]]) + Without(order[1..], dead)
  }

  /** The store without any row of the tasks in `dead`. */
  function Purge(s: Store, dead: set<TaskId>): Store {
    Store(
      s.tasks - dead,
      Without(s.order, dead),
      map a | a in s.attempts && s.attempts[a].taskId !in dead :: s.attempts[a],
      s.leases - dead,
      s.byToken - TokensOf(s, dead),
      s.events - dead,
      s.eventIds - dead,
      s.fencing)
  }

  function DeleteByScope(s: Store, scope: string): (Store, Answer<nat>) {
    if BusyIn(s, scope) != {} then (s, Err(ScopeBusy(BusyIn(s, scope))))
    else (Purge(s, InScope(s, scope)), Ok(|InScope(s, scope)|))
  }

  function RunningOf(rows: map<AttemptId, Attempt>, id: TaskId): set<AttemptId> {
    set a | a in rows && rows[a].taskId == id && rows[a].status == AttemptRunning
  }

  /** A row is marked before the clock is read for its end. */
  function Cancelling(attempt: Attempt, reason: string, clock: Option<int>): Attempt {
    var marked := attempt.(status := AttemptCancelled, error := Some(reason));
    if clock.Some? then marked.(endedAt := clock) else marked
  }

  function CancelAttempts(rows: map<AttemptId, Attempt>, ids: set<AttemptId>, reason: string, now: int)
    : map<AttemptId, Attempt>
  {
    map a | a in rows :: if a in ids then Cancelling(rows[a], reason, Some(now)) else rows[a]
  }

  /** Each cancelled attempt reads the clock anew. A clock that throws stops the loop at attempt
      `at`, with the attempts of `done` behind it. */
  datatype Stop = Stop(done: set<AttemptId>, at: AttemptId)

  predicate Stops(rows: map<AttemptId, Attempt>, id: TaskId, stop: Option<Stop>) {
    stop.Some? && stop.value.at in RunningOf(rows, id) && stop.value.at !in stop.value.done
  }

  function CancelUpTo(rows: map<AttemptId, Attempt>, id: TaskId, stop: Stop, reason: string, now: int)
    : map<AttemptId, Attempt>
    requires stop.at in rows
  {
    CancelAttempts(rows, RunningOf(rows, id) * stop.done, reason, now)[stop.at := Cancelling(rows[stop.at], reason, None)]
  }

  function InterruptedRows(rows: map<AttemptId, Attempt>, id: TaskId, stop: Option<Stop>, reason: string, now: int)
    : map<AttemptId, Attempt>
  {
    if Stops(rows, id, stop) then CancelUpTo(rows, id, stop.value, reason, now)
    else CancelAttempts(rows, RunningOf(rows, id), reason, now)
  }

  /** An interrupt whose clock throws has marked the task and some attempts, and keeps the lease. */
  function InterruptTask(s: Store, id: TaskId, reason: string, token: Option<Token>, now: int, stop: Option<Stop>)
    : (Store, Answer<bool>)
  {
    if !FenceOpen(s, id, token, now) then (s, Err(LeaseLost))
    else if id !in s.tasks || s.tasks[id].status !in {Queued, Running} then (s, Ok(false))
    else
      var marked := s.(tasks := s.tasks[id := s.tasks[id].(status := Interrupted, error := Some(reason))],
                       attempts := InterruptedRows(s.attempts, id, stop, reason, now));
      if Stops(s.attempts, id, stop) then (marked, Err(HostFault)) else (DropLease(marked, id), Ok(true))
  }

  predicate QueuedBy(task: Task, instant: int) {
    task.status == Queued && task.enqueuedAt <= instant
  }

  function QueuedBefore(s: Store, instant: int): set<TaskId> {
    set id | id in s.tasks && QueuedBy(s.tasks[id], instant)
  }

  function ManuallyInterrupted(task: Task): Task {
    task.(status := Interrupted, error := Some("manual_recovery"))
  }

  function InterruptAll(s: Store, ids: set<TaskId>): Store {
    s.(tasks := map id | id in s.tasks :: if id in ids then ManuallyInterrupted(s.tasks[id]) else s.tasks[id])
  }

  function InterruptQueued(s: Store, before: Instant): (Store, Answer<nat>) {
    match before
    case Unparsable => (s, Err(InvalidTimestamp))
    case At(instant) => (InterruptAll(s, QueuedBefore(s, instant)), Ok(|QueuedBefore(s, instant)|))
  }

  datatype Patch = Patch(
    startedAt: Option<int>,
    finishedAt: Option<int>,
    error: Option<string>,
    availableAt: Option<Instant>,
    priority: Option<int>,
    poisonCount: Option<int>,
    payload: Option<string>)

  const NO_PATCH := Patch(None, None, None, None, None, None, None)

  function ApplyPatch(task: Task, to: Status, patch: Patch): Task
    requires patch.availableAt != Some(Unparsable)
  {
    task.(status := to,
      startedAt := if patch.startedAt.Some? then patch.startedAt else task.startedAt,
      finishedAt := if patch.finishedAt.Some? then patch.finishedAt else task.finishedAt,
      error := if patch.error.Some? then patch.error else task.error,
      availableAt := if patch.availableAt.Some? then patch.availableAt.value.ms else task.availableAt,
      priority := patch.priority.GetOr(task.priority),
      poisonCount := patch.poisonCount.GetOr(task.poisonCount),
      payload := patch.payload.GetOr(task.payload))
  }

  function TransitionTask(s: Store, id: TaskId, from: set<Status>, to: Status, patch: Patch,
                          token: Option<Token>, now: int): (Store, Answer<Task>)
  {
    if patch.availableAt == Some(Unparsable) then (s, Err(InvalidTimestamp))
    else if id !in s.tasks then (s, Err(NotFound))
    else if !FenceOpen(s, id, token, now) then (s, Err(LeaseLost))
    else if s.tasks[id].status !in from || to !in Successors(s.tasks[id].status)
    then (s, Err(InvalidTransition))
    else
      var task := ApplyPatch(s.tasks[id], to, patch);
      (s.(tasks := s.tasks[id := task]), Ok(task))
  }

  function UpdateProgress(s: Store, id: TaskId, progress: string, token: Token, now: int): (Store, Answer<Task>) {
    if id !in s.tasks then (s, Err(NotFound))
    else if !Current(s, id, token, now) then (s, Err(LeaseLost))
    else
      var task := s.tasks[id].(progress := Some(progress));
      (s.(tasks := s.tasks[id := task]), Ok(task))
  }

  function MarkDeadLettered(s: Store, id: TaskId, reason: string, token: Option<Token>, now: int): (Store, Answer<Task>) {
    if id !in s.tasks then (s, Err(NotFound))
    else if !FenceOpen(s, id, token, now) then (s, Err(LeaseLost))
    else
      var task := s.tasks[id].(deadLetter := Some((now, reason)));
      (s.(tasks := s.tasks[id := task]), Ok(task))
  }

  // ---------------------------------------------------------------- attempts

  function CountAttempt(s: Store, id: TaskId): Store
    requires id in s.tasks
  {
    s.(tasks := s.tasks[id := s.tasks[id].(attemptCount := s.tasks[id].attemptCount + 1)])
  }

  /** The count is raised before the clock is read, so a clock that throws (`None`) leaves a
      counted attempt without a row. */
  function CreateAttempt(s: Store, attemptId: AttemptId, id: TaskId, owner: string, clock: Option<int>)
    : (Store, Answer<Attempt>)
  {
    if id !in s.tasks then (s, Err(NotFound))
    else if clock.None? then (CountAttempt(s, id), Err(HostFault))
    else
      var counted := CountAttempt(s, id);
      var attempt := Attempt(id, counted.tasks[id].attemptCount, AttemptRunning, owner, clock.value, None, None);
      (counted.(attempts := counted.attempts[attemptId := attempt]), Ok(attempt))
  }

  /** The status is written before the clock is read, so a clock that throws (`None`) leaves an
      attempt that has ended and is counted nowhere. */
  function EndAttempt(s: Store, attemptId: AttemptId, status: AttemptStatus, error: Option<string>,
                      token: Option<Token>, now: int, clock: Option<int>): (Store, Answer<Attempt>)
  {
    if attemptId !in s.attempts then (s, Err(NotFound))
    else
      var attempt := s.attempts[attemptId];
      var id := attempt.taskId;
      if !FenceOpen(s, id, token, now) then (s, Err(LeaseLost))
      else if attempt.status != AttemptRunning then (s, Ok(attempt))
      else if clock.None? then (s.(attempts := s.attempts[attemptId := attempt.(status := status)]), Err(HostFault))
      else
        var ended := attempt.(status := status, endedAt := clock, error := if error.Some? then error else attempt.error);
        var s1 := s.(attempts := s.attempts[attemptId := ended]);
        (if status == Abandoned && id in s.tasks
         then s1.(tasks := s.tasks[id := s.tasks[id].(poisonCount := s.tasks[id].poisonCount + 1)])
         else s1,
         Ok(ended))
  }

  // ------------------------------------------------------------------ events

  function Log(s: Store, id: TaskId): seq<Event> {
    if id in s.events then s.events[id] else []
  }

  function LogIds(s: Store, id: TaskId): set<EventId> {
    if id in s.eventIds then s.eventIds[id] else {}
  }

  function LastSeq(log: seq<Event>): int {
    if log == [] then -1 else log[|log| - 1].seqNo
  }

  function NextSeq(s: Store, id: TaskId): int {
    if Log(s, id) == [] then 0 else LastSeq(Log(s, id)) + 1
  }

  function IdsOf(batch: seq<Event>): (r: set<EventId>)
    ensures forall x :: x in r <==> exists i :: 0 <= i < |batch| && batch[i].id == x
  {
    set i | 0 <= i < |batch| :: batch[i].id
  }

  /** The batch continues a log that ends at `last` and holds `ids`: its numbers rise
      strictly past `last`, and no id repeats within it or in the log. */
  predicate Appendable(last: int, ids: set<EventId>, batch: seq<Event>)
    decreases batch
  {
    batch == []
    || (last < batch[0].seqNo && batch[0].id !in ids
        && Appendable(batch[0].seqNo, ids + {batch[0].id}, batch[1..]))
  }

  function AppendEvents(s: Store, id: TaskId, batch: seq<Event>, token: Token, now: int): (Store, Answer<()>) {
    if !Current(s, id, token, now) then (s, Err(LeaseLost))
    else if batch == [] then (s, Ok(()))
    else if !Appendable(LastSeq(Log(s, id)), LogIds(s, id), batch) then (s, Err(SeqConflict))
    else (s.(events := s.events[id := Log(s, id) + batch],
             eventIds := s.eventIds[id := LogIds(s, id) + IdsOf(batch)]),
          Ok(()))
  }

  /** `slice(0, limit)`: a negative limit drops from the end. */
  function Prefix<T>(xs: seq<T>, limit: int): seq<T> {
    if limit < 0 then xs[..if |xs| + limit < 0 then 0 else |xs| + limit]
    else xs[..if limit < |xs| then limit else |xs|]
  }

  function After(log: seq<Event>, after: int): seq<Event> {
    if log == [] then []
    else (if after < log[0].seqNo then [log[0]] else []) + After(log[1..], after)
  }

  function ListEvents(s: Store, id: TaskId, afterSeq: Option<int>, limit: Option<int>): seq<Event> {
    var log := Log(s, id);
    var tail := if afterSeq.Some? then After(log, afterSeq.value) else log;
    if limit.Some? then Prefix(tail, limit.value) else tail
  }
}
