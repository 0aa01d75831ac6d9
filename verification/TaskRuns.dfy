/**
 Runs of the task store: any number of workers, in any interleaving, each step one
 operation of the store at an instant that never moves backwards. The world records what
 callers were handed and under which lease every event was accepted.
 */
module TaskRuns {
  import opened Wrappers
  import opened TaskModel
  import opened TaskClaim
  import opened ClaimProofs
  import opened TaskFrames

  datatype Op =
    | Create(input: CreateInput)
    | Delete(scope: string)
    | Interrupt(id: TaskId, reason: string, fence: Option<Token>, stop: Option<Stop>)
    | InterruptBefore(before: Instant)
    | Transition(id: TaskId, from: set<Status>, to: Status, patch: Patch, fence: Option<Token>)
    | NewAttempt(attemptId: AttemptId, id: TaskId, owner: string, clockFails: bool)
    | FinishAttempt(attemptId: AttemptId, status: AttemptStatus, error: Option<string>, fence: Option<Token>, clockFails: bool)
    | Acquire(acquire: AcquireInput, token: Token, clockFails: bool)
    | Renew(token: Token, ttlMs: int)
    | Release(token: Token)
    | Expire(at: int)
    | Append(id: TaskId, batch: seq<Event>, token: Token)
    | Progress(id: TaskId, progress: string, token: Token)
    | DeadLetter(id: TaskId, reason: string, fence: Option<Token>)
    | Claim(q: Query, env: Env)

  datatype Config = Config(aging: Aging, leaseTtlMs: int)

  predicate Sound(cfg: Config) {
    cfg.aging.intervalMs > 0
  }

  function Clock(fails: bool, now: int): Option<int> {
    if fails then None else Some(now)
  }

  function Apply(cfg: Config, s: Store, op: Op, now: int): Store
    requires Sound(cfg)
  {
    match op
    case Create(input) => CreateTask(s, input, now).0
    case Delete(scope) => DeleteByScope(s, scope).0
    case Interrupt(id, reason, fence, stop) => InterruptTask(s, id, reason, fence, now, stop).0
    case InterruptBefore(before) => InterruptQueued(s, before).0
    case Transition(id, from, to, patch, fence) => TransitionTask(s, id, from, to, patch, fence, now).0
    case NewAttempt(attemptId, id, owner, fails) => CreateAttempt(s, attemptId, id, owner, Clock(fails, now)).0
    case FinishAttempt(attemptId, status, error, fence, fails) =>
      EndAttempt(s, attemptId, status, error, fence, now, Clock(fails, now)).0
    case Acquire(input, token, fails) => AcquireLease(s, input, token, Clock(fails, now)).0
    case Renew(token, ttlMs) => RenewLease(s, token, ttlMs, now).0
    case Release(token) => ReleaseLease(s, token).0
    case Expire(at) => ExpireStaleLeases(s, at).0
    case Append(id, batch, token) => AppendEvents(s, id, batch, token, now).0
    case Progress(id, progress, token) => UpdateProgress(s, id, progress, token, now).0
    case DeadLetter(id, reason, fence) => MarkDeadLettered(s, id, reason, fence, now).0
    case Claim(q, env) => ClaimNext(s, q, cfg.aging, cfg.leaseTtlMs, env.(now := now)).0
  }

  /** The lease an operation returns to its caller as a new one. */
  function Handed(cfg: Config, s: Store, op: Op, now: int): Option<Lease>
    requires Sound(cfg)
  {
    match op
    case Acquire(input, token, fails) =>
      (match AcquireLease(s, input, token, Clock(fails, now)).1 case Ok(l) => Some(l) case Err(_) => None)
    case Claim(q, env) =>
      (match ClaimNext(s, q, cfg.aging, cfg.leaseTtlMs, env.(now := now)).1
       case Ok(Some(c)) => Some(c.lease) case _ => None)
    case _ => None
  }

  /** The token an operation would mint for a new lease. */
  function Minted(op: Op): Option<Token> {
    match op
    case Acquire(_, token, _) => Some(token)
    case Claim(_, env) => Some(env.token)
    case _ => None
  }

  // ------------------------------------------------- what a step does to leases

  datatype LeaseMove =
    | Keep
    | Drop(ids: set<TaskId>)
    | Extend(id: TaskId, expiresAt: int)
    | LoseToken(id: TaskId)
    | Grant(lease: Lease)

  ghost predicate Moves(s: Store, e: Store, m: LeaseMove, now: int) {
    match m
    case Keep => e.leases == s.leases && e.byToken == s.byToken && e.fencing == s.fencing
    case Drop(ids) =>
      e.leases == s.leases - ids && e.byToken == s.byToken - TokensOf(s, ids) && e.fencing == s.fencing
    case Extend(id, at) =>
      id in s.leases && now < s.leases[id].expiresAt && s.leases[id].token in s.byToken
      && e.leases == s.leases[id := s.leases[id].(expiresAt := at)]
      && e.byToken == s.byToken && e.fencing == s.fencing
    case LoseToken(id) =>
      e.leases == s.leases && e.byToken == s.byToken - TokensOf(s, {id}) && s.fencing <= e.fencing
    case Grant(l) =>
      e.leases == s.leases[l.taskId := l]
      && e.byToken == (s.byToken - TokensOf(s, {l.taskId}))[l.token := l.taskId]
      && e.fencing == s.fencing + 1 == l.fencing
  }

  /** Every lease sits under its own task, and the token index points at present leases only. */
  ghost predicate LeasesKeyed(s: Store) {
    && (forall id :: id in s.leases ==> s.leases[id].taskId == id)
    && (forall k :: k in s.byToken ==> s.byToken[k] in s.leases && s.leases[s.byToken[k]].token == k)
  }

  lemma TokensOfOne(s: Store, id: TaskId)
    ensures TokensOf(s, {id}) == if id in s.leases then {s.leases[id].token} else {}
  {
  }

  /** A claim keeps the leases it found, or drops the token of a lease it failed to
      replace, or grants one lease. */
  ghost predicate ClaimMoved(s: Store, e: Store, m: LeaseMove, env: Env) {
    && Moves(s, e, m, env.now) && (m.Keep? || m.LoseToken? || m.Grant?)
    && (m.LoseToken? ==> e.fencing == s.fencing)
    && (m.Grant? ==> m.lease.token == env.token && m.lease.attemptId == env.attemptId)
  }

  lemma ClaimTaskMove(s: Store, id: TaskId, q: Query, leaseTtlMs: int, env: Env) returns (m: LeaseMove)
    requires id in s.tasks && s.tasks[id].status == Queued
    ensures ClaimMoved(s, ClaimTask(s, id, q, leaseTtlMs, env).0, m, env)
    ensures match ClaimTask(s, id, q, leaseTtlMs, env).1
            case Ok(c) => m == Grant(c.lease)
            case Err(_) => m == if WroteAttempt(env) then LoseToken(id) else Keep
    ensures m.Grant? ==> m.lease.expiresAt == env.now + leaseTtlMs
  {
    TokensOfOne(s, id);
    if ClaimTask(s, id, q, leaseTtlMs, env).1.Ok? {
      SuccessfulClaim(s, id, q, leaseTtlMs, env);
      m := Grant(ClaimTask(s, id, q, leaseTtlMs, env).1.value.lease);
    } else {
      m := FailedClaimMove(s, id, q, leaseTtlMs, env);
    }
  }

  lemma FailedClaimMove(s: Store, id: TaskId, q: Query, leaseTtlMs: int, env: Env) returns (m: LeaseMove)
    requires id in s.tasks && s.tasks[id].status == Queued
    requires ClaimTask(s, id, q, leaseTtlMs, env).1.Err?
    ensures ClaimMoved(s, ClaimTask(s, id, q, leaseTtlMs, env).0, m, env)
    ensures m == if WroteAttempt(env) then LoseToken(id) else Keep
  {
    TokensOfOne(s, id);
    if WroteAttempt(env) {
      assert ClaimTask(s, id, q, leaseTtlMs, env).0 == Undo(CaptureOf(s, id), GaveUpAtLease(s, id, q, env), id);
      UndoRestores(s, GaveUpAtLease(s, id, q, env), id);
      m := LoseToken(id);
    } else {
      FailureBeforeAttempt(s, id, q, leaseTtlMs, env);
      m := Keep;
    }
  }

  /** What a claim that returns no lease does to the leases. */
  function FailedMove(cfg: Config, s: Store, q: Query, env: Env): LeaseMove
    requires Sound(cfg)
  {
    var hit := HitOf(Walk(s, Schedule(s, q, cfg.aging), env, 0));
    if hit.Some? && WroteAttempt(env) then LoseToken(hit.value) else Keep
  }

  lemma ClaimMove(cfg: Config, s: Store, q: Query, env: Env) returns (m: LeaseMove)
    requires Sound(cfg) && WellOrdered(s)
    ensures ClaimMoved(s, ClaimNext(s, q, cfg.aging, cfg.leaseTtlMs, env).0, m, env)
    ensures match ClaimNext(s, q, cfg.aging, cfg.leaseTtlMs, env).1
            case Ok(Some(c)) => m == Grant(c.lease)
            case _ => m == FailedMove(cfg, s, q, env)
    ensures m.Grant? ==> m.lease.expiresAt == env.now + cfg.leaseTtlMs
  {
    var story := ClaimTakesFirstReady(s, q, cfg.aging, cfg.leaseTtlMs, env);
    m := Keep;
    if story.id.Some? {
      m := ClaimTaskMove(story.mid, story.id.value, q, cfg.leaseTtlMs, env);
      if !m.Keep? {
        TokensOfOne(s, story.id.value);
        TokensOfOne(story.mid, story.id.value);
        TokensOfOne(s, if m.Grant? then m.lease.taskId else story.id.value);
      }
    }
  }

  /** The lease step of a claim throws: the host clock fails there, or the expiry has no ISO form. */
  predicate LeaseStepThrows(cfg: Config, env: Env) {
    WroteAttempt(env) && (env.fault == AtLeaseClock || !HasIsoForm(env.now + cfg.leaseTtlMs))
  }

  /** The task whose lease an operation sets out to replace and then fails to, as a caller can tell
      beforehand from the clock and the expiry. */
  function FailsReplacing(cfg: Config, s: Store, op: Op, now: int): Option<TaskId>
    requires Sound(cfg)
  {
    match op
    case Acquire(input, _, fails) => if fails || !HasIsoForm(now + input.ttlMs) then Some(input.taskId) else None
    case Claim(q, env) =>
      if LeaseStepThrows(cfg, env.(now := now)) then HitOf(Walk(s, Schedule(s, q, cfg.aging), env.(now := now), 0)) else None
    case _ => None
  }

  lemma ClaimFailsReplacing(cfg: Config, s: Store, q: Query, env: Env)
    requires Sound(cfg) && WellOrdered(s)
    ensures var hit := HitOf(Walk(s, Schedule(s, q, cfg.aging), env, 0));
            hit.Some? && LeaseStepThrows(cfg, env)
            <==> ClaimNext(s, q, cfg.aging, cfg.leaseTtlMs, env).1.Err? && FailedMove(cfg, s, q, env).LoseToken?
  {
    var story := ClaimTakesFirstReady(s, q, cfg.aging, cfg.leaseTtlMs, env);
    if story.id.Some? {
      SuccessfulClaim(story.mid, story.id.value, q, cfg.leaseTtlMs, env);
    }
  }

  // --------------------------------------------------------------- every step

  predicate LeaseWrite(op: Op) {
    op.Acquire? || op.Renew? || op.Release? || op.Expire?
  }

  /** Every operation but the three that add or remove rows leaves them as they are. */
  lemma StepFrame(cfg: Config, s: Store, op: Op, now: int)
    requires Sound(cfg) && WellOrdered(s) && !op.Create? && !op.Delete? && !op.Append?
    ensures Frame(s, Apply(cfg, s, op, now))
    ensures LeaseWrite(op) ==> OnlyLeases(s, Apply(cfg, s, op, now))
  {
    match op {
      case Interrupt(id, reason, fence, stop) => InterruptFrame(s, id, reason, fence, now, stop);
      case Claim(q, env) => ClaimFrame(s, q, cfg.aging, cfg.leaseTtlMs, env.(now := now));
      case Acquire(input, token, fails) => LeasesFrame(s, input, token, Clock(fails, now), 0, now, 0);
      case Renew(token, ttlMs) => LeasesFrame(s, AcquireInput("", "", "", 0), token, None, ttlMs, now, 0);
      case Release(token) => LeasesFrame(s, AcquireInput("", "", "", 0), token, None, 0, now, 0);
      case Expire(at) => LeasesFrame(s, AcquireInput("", "", "", 0), "", None, 0, now, at);
      case _ => QuietFrame(cfg, s, op, now);
    }
  }

  predicate Quiet(op: Op) {
    op.InterruptBefore? || op.Transition? || op.NewAttempt? || op.FinishAttempt? || op.Progress? || op.DeadLetter?
  }

  lemma QuietFrame(cfg: Config, s: Store, op: Op, now: int)
    requires Sound(cfg) && Quiet(op)
    ensures Frame(s, Apply(cfg, s, op, now)) && SameLeases(s, Apply(cfg, s, op, now))
  {
    match op {
      case InterruptBefore(before) => InterruptQueuedFrame(s, before);
      case Transition(id, from, to, patch, fence) => TransitionFrame(s, id, from, to, patch, fence, now);
      case NewAttempt(attemptId, id, owner, fails) => CreateAttemptFrame(s, attemptId, id, owner, Clock(fails, now));
      case FinishAttempt(attemptId, status, error, fence, fails) =>
        EndAttemptFrame(s, attemptId, status, error, fence, now, Clock(fails, now));
      case Progress(id, progress, token) => ProgressFrame(s, id, progress, token, now);
      case DeadLetter(id, reason, fence) => DeadLetterFrame(s, id, reason, fence, now);
    }
  }

  lemma DropMove(cfg: Config, s: Store, op: Op, now: int) returns (m: LeaseMove)
    requires Sound(cfg) && (op.Delete? || op.Interrupt? || op.Expire?)
    ensures Moves(s, Apply(cfg, s, op, now), m, now) && (m.Keep? || m.Drop?)
    ensures op.Delete? && Apply(cfg, s, op, now) != s ==> m == Drop(InScope(s, op.scope))
  {
    m := Keep;
    match op {
      case Delete(scope) =>
        if BusyIn(s, scope) == {} { m := Drop(InScope(s, scope)); }
      case Interrupt(id, _, fence, stop) =>
        TokensOfOne(s, id);
        if FenceOpen(s, id, fence, now) && id in s.tasks && s.tasks[id].status in {Queued, Running}
           && !Stops(s.attempts, id, stop) {
          m := Drop({id});
        }
      case Expire(at) => m := Drop(StaleTasks(s, at));
    }
  }

  lemma TokenMove(cfg: Config, s: Store, op: Op, now: int) returns (m: LeaseMove)
    requires Sound(cfg) && LeasesKeyed(s) && (op.Release? || op.Renew?)
    ensures Moves(s, Apply(cfg, s, op, now), m, now) && (m.Keep? || m.Drop? || m.Extend?)
    ensures m.Extend? <==> op.Renew? && RenewLease(s, op.token, op.ttlMs, now).1.Ok?
    ensures m.Extend? ==> op.token in s.byToken && m == Extend(s.byToken[op.token], now + op.ttlMs)
  {
    m := Keep;
    match op {
      case Release(token) =>
        if ByToken(s, token).Some? {
          TokensOfOne(s, s.byToken[token]);
          m := Drop({s.byToken[token]});
        }
      case Renew(token, ttlMs) =>
        if RenewLease(s, token, ttlMs, now).1.Ok? { m := Extend(s.byToken[token], now + ttlMs); }
    }
  }

  lemma AcquireMove(cfg: Config, s: Store, op: Op, now: int) returns (m: LeaseMove)
    requires Sound(cfg) && op.Acquire?
    ensures Moves(s, Apply(cfg, s, op, now), m, now)
    ensures match AcquireLease(s, op.acquire, op.token, Clock(op.clockFails, now)).1
            case Ok(l) => m == Grant(l) && l.token == op.token && l.expiresAt == now + op.acquire.ttlMs
            case Err(_) => m == LoseToken(op.acquire.taskId)
  {
    TokensOfOne(s, op.acquire.taskId);
    match AcquireLease(s, op.acquire, op.token, Clock(op.clockFails, now)).1 {
      case Ok(l) => m := Grant(l);
      case Err(_) => m := LoseToken(op.acquire.taskId);
    }
  }

  /** Neither an acquisition nor a claim: no lease is handed out. */
  lemma ClassifyPlain(cfg: Config, s: Store, op: Op, now: int) returns (m: LeaseMove)
    requires Sound(cfg) && LeasesKeyed(s) && !op.Acquire? && !op.Claim?
    ensures Moves(s, Apply(cfg, s, op, now), m, now) && !m.Grant? && !m.LoseToken?
    ensures m.Extend? <==> op.Renew? && RenewLease(s, op.token, op.ttlMs, now).1.Ok?
    ensures m.Extend? ==> op.token in s.byToken && m == Extend(s.byToken[op.token], now + op.ttlMs)
    ensures op.Delete? && Apply(cfg, s, op, now) != s ==> m == Drop(InScope(s, op.scope))
  {
    m := Keep;
    if Quiet(op) {
      QuietFrame(cfg, s, op, now);
    } else if op.Release? || op.Renew? {
      m := TokenMove(cfg, s, op, now);
    } else if !op.Create? && !op.Append? {
      m := DropMove(cfg, s, op, now);
    }
  }

  lemma Classify(cfg: Config, s: Store, op: Op, now: int) returns (m: LeaseMove)
    requires Sound(cfg) && WellOrdered(s) && LeasesKeyed(s)
    ensures Moves(s, Apply(cfg, s, op, now), m, now)
    ensures Handed(cfg, s, op, now) == if m.Grant? then Some(m.lease) else None
    ensures m.Grant? ==> Minted(op) == Some(m.lease.token)
    ensures m.Grant? ==> m.lease.expiresAt == now + if op.Acquire? then op.acquire.ttlMs else cfg.leaseTtlMs
    ensures m.Extend? <==> op.Renew? && RenewLease(s, op.token, op.ttlMs, now).1.Ok?
    ensures m.Extend? ==> op.token in s.byToken && m == Extend(s.byToken[op.token], now + op.ttlMs)
    ensures m.LoseToken? <==> FailsReplacing(cfg, s, op, now).Some?
    ensures m.LoseToken? ==> m.id == FailsReplacing(cfg, s, op, now).value
    ensures op.Delete? && Apply(cfg, s, op, now) != s ==> m == Drop(InScope(s, op.scope))
  {
    if op.Claim? {
      m := ClaimMove(cfg, s, op.q, op.env.(now := now));
      ClaimFailsReplacing(cfg, s, op.q, op.env.(now := now));
    } else if op.Acquire? {
      m := AcquireMove(cfg, s, op, now);
    } else {
      m := ClassifyPlain(cfg, s, op, now);
    }
  }
}
