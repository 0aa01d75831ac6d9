/** How long a lease lasts: from its grant or renewal to its expiry, whatever others do meanwhile. */
module TaskLeases {
  import opened Wrappers
  import opened TaskModel
  import opened TaskClaim
  import opened ClaimProofs
  import opened TaskFrames
  import opened TaskRuns
  import opened TaskHistory

  /** The operation is about something else than the lease of this task. */
  predicate Spares(s: Store, op: Op, id: TaskId)
    requires id in s.leases
  {
    match op
    case Acquire(input, _, _) => input.taskId != id
    case Renew(token, _) => token != s.leases[id].token
    case Release(token) => token != s.leases[id].token
    case Interrupt(x, _, _, _) => x != id
    case Delete(scope) => id !in s.tasks || s.tasks[id].scope != scope
    case Expire(at) => at < s.leases[id].expiresAt
    case Claim(_, _) => id in s.tasks && s.tasks[id].status != Queued
    case _ => true
  }

  lemma ClaimGrants(cfg: Config, s: Store, q: Query, env: Env) returns (m: LeaseMove)
    requires Sound(cfg) && WellOrdered(s)
    ensures Moves(s, ClaimNext(s, q, cfg.aging, cfg.leaseTtlMs, env).0, m, env.now)
    ensures match ClaimNext(s, q, cfg.aging, cfg.leaseTtlMs, env).1
            case Ok(Some(c)) => m.Grant? && m.lease.taskId == c.id
            case _ => m.Keep? || m.LoseToken?
  {
    m := ClaimMove(cfg, s, q, env);
    var story := ClaimTakesFirstReady(s, q, cfg.aging, cfg.leaseTtlMs, env);
    if story.id.Some? {
      SuccessfulClaim(story.mid, story.id.value, q, cfg.leaseTtlMs, env);
    }
  }

  lemma SparedByClaim(cfg: Config, s: Store, q: Query, env: Env, id: TaskId)
    requires Sound(cfg) && WellOrdered(s) && id in s.leases && id in s.tasks && s.tasks[id].status != Queued
    ensures var e := ClaimNext(s, q, cfg.aging, cfg.leaseTtlMs, env).0;
            id in e.leases && e.leases[id] == s.leases[id]
  {
    var m := ClaimGrants(cfg, s, q, env);
    if m.Grant? {
      TakesQueued(cfg, s, q, env);
    }
  }

  lemma TakesQueued(cfg: Config, s: Store, q: Query, env: Env)
    requires Sound(cfg) && WellOrdered(s)
    ensures match ClaimNext(s, q, cfg.aging, cfg.leaseTtlMs, env).1
            case Ok(Some(c)) => c.id in s.tasks && s.tasks[c.id].status == Queued
            case _ => true
  {
    var story := ClaimTakesFirstReady(s, q, cfg.aging, cfg.leaseTtlMs, env);
    if story.id.Some? {
      SuccessfulClaim(story.mid, story.id.value, q, cfg.leaseTtlMs, env);
    }
  }

  lemma SparedByGrant(cfg: Config, s: Store, op: Op, now: int, id: TaskId)
    requires Sound(cfg) && id in s.leases && Spares(s, op, id) && (op.Acquire? || op.Expire?)
    ensures id in Apply(cfg, s, op, now).leases && Apply(cfg, s, op, now).leases[id] == s.leases[id]
  {
  }

  lemma SparedByToken(cfg: Config, s: Store, op: Op, now: int, id: TaskId)
    requires Sound(cfg) && LeasesKeyed(s) && id in s.leases && Spares(s, op, id) && (op.Renew? || op.Release?)
    ensures id in Apply(cfg, s, op, now).leases && Apply(cfg, s, op, now).leases[id] == s.leases[id]
  {
  }

  lemma SparedByRows(cfg: Config, s: Store, op: Op, now: int, id: TaskId)
    requires Sound(cfg) && id in s.leases && Spares(s, op, id)
    requires op.Create? || op.Append? || op.Delete? || op.Interrupt?
    ensures id in Apply(cfg, s, op, now).leases && Apply(cfg, s, op, now).leases[id] == s.leases[id]
  {
  }

  lemma SparedStays(cfg: Config, s: Store, op: Op, now: int, id: TaskId)
    requires Sound(cfg) && WellOrdered(s) && LeasesKeyed(s) && id in s.leases && Spares(s, op, id)
    ensures id in Apply(cfg, s, op, now).leases && Apply(cfg, s, op, now).leases[id] == s.leases[id]
  {
    if op.Claim? {
      SparedByClaim(cfg, s, op.q, op.env.(now := now), id);
    } else if Quiet(op) {
      QuietFrame(cfg, s, op, now);
    } else if op.Acquire? || op.Expire? {
      SparedByGrant(cfg, s, op, now, id);
    } else if op.Renew? || op.Release? {
      SparedByToken(cfg, s, op, now, id);
    } else {
      SparedByRows(cfg, s, op, now, id);
    }
  }

  /** Every step of the run leaves that lease alone. */
  predicate SparingRun(cfg: Config, w: World, run: seq<Entry>, id: TaskId)
    requires Sound(cfg)
    decreases run
  {
    id in w.s.leases && (run == [] || (Spares(w.s, run[0].op, id) && SparingRun(cfg, Next(cfg, w, run[0]), run[1..], id)))
  }

  lemma {:induction false} LeaseStays(cfg: Config, w: World, run: seq<Entry>, id: TaskId)
    requires Sound(cfg) && Inv(w) && FairRun(cfg, w, run) && SparingRun(cfg, w, run, id)
    ensures id in Run(cfg, w, run).s.leases && Run(cfg, w, run).s.leases[id] == w.s.leases[id]
    decreases run
  {
    if run != [] {
      var m := StepKeepsInv(cfg, w, run[0]);
      SparedStays(cfg, w.s, run[0].op, run[0].now, id);
      LeaseStays(cfg, Next(cfg, w, run[0]), run[1..], id);
    }
  }

  /** The token writes to the task's log until that instant, and from then on is told the lease is lost. */
  ghost predicate WritesUntil(s: Store, id: TaskId, token: Token, end: int) {
    forall t: int, batch :: AppendEvents(s, id, batch, token, t).1 == Err(LeaseLost) <==> t >= end
  }

  lemma WritesUntilExpiry(s: Store, id: TaskId)
    requires id in s.leases
    ensures WritesUntil(s, id, s.leases[id].token, s.leases[id].expiresAt)
  {
  }

  /** A renewal at `now` makes its token write until `now + ttlMs`, and no longer, through whatever happens
      to other leases. */
  lemma RenewalLasts(cfg: Config, w: World, token: Token, ttlMs: int, now: int, run: seq<Entry>)
    requires Sound(cfg) && Inv(w) && RenewLease(w.s, token, ttlMs, now).1.Ok?
    requires FairRun(cfg, w, [Entry(Renew(token, ttlMs), now)] + run)
    requires token in w.s.byToken
             && SparingRun(cfg, Next(cfg, w, Entry(Renew(token, ttlMs), now)), run, w.s.byToken[token])
    ensures WritesUntil(Run(cfg, w, [Entry(Renew(token, ttlMs), now)] + run).s, w.s.byToken[token], token, now + ttlMs)
  {
    var id, e := w.s.byToken[token], Entry(Renew(token, ttlMs), now);
    var w1 := Next(cfg, w, e);
    assert ([e] + run)[1..] == run;
    var m := StepKeepsInv(cfg, w, e);
    assert w1.s.leases[id].token == token && w1.s.leases[id].expiresAt == now + ttlMs;
    LeaseStays(cfg, w1, run, id);
    WritesUntilExpiry(Run(cfg, w1, run).s, id);
  }

  /** So does the lease of an acquisition or of a claim, from the instant it is handed out. */
  lemma GrantLasts(cfg: Config, w: World, e: Entry, l: Lease, run: seq<Entry>)
    requires Sound(cfg) && Inv(w) && Handed(cfg, w.s, e.op, e.now) == Some(l)
    requires FairRun(cfg, w, [e] + run) && SparingRun(cfg, Next(cfg, w, e), run, l.taskId)
    ensures WritesUntil(Run(cfg, w, [e] + run).s, l.taskId, l.token,
                        e.now + if e.op.Acquire? then e.op.acquire.ttlMs else cfg.leaseTtlMs)
  {
    var w1 := Next(cfg, w, e);
    assert ([e] + run)[1..] == run;
    var m := Classify(cfg, w.s, e.op, e.now);
    var m' := StepKeepsInv(cfg, w, e);
    assert w1.s.leases[l.taskId] == l;
    LeaseStays(cfg, w1, run, l.taskId);
    WritesUntilExpiry(Run(cfg, w1, run).s, l.taskId);
  }

  /** Exactly a token that is not lost can be renewed, before its expiry, to an expiry that has an ISO form;
      the lease answered is the one it had, with that expiry. */
  lemma RenewableIff(s: Store, token: Token, ttlMs: int, now: int)
    requires LeasesKeyed(s)
    ensures RenewLease(s, token, ttlMs, now).1.Ok? <==>
            token in s.byToken && now < s.leases[s.byToken[token]].expiresAt && HasIsoForm(now + ttlMs)
    ensures RenewLease(s, token, ttlMs, now).1.Ok? ==>
              var id := s.byToken[token];
              && RenewLease(s, token, ttlMs, now).1.value == s.leases[id].(expiresAt := now + ttlMs)
              && WritesUntil(RenewLease(s, token, ttlMs, now).0, id, token, now + ttlMs)
  {
    if RenewLease(s, token, ttlMs, now).1.Ok? {
      WritesUntilExpiry(RenewLease(s, token, ttlMs, now).0, s.byToken[token]);
    }
  }

  // ------------------------------------------------------------- what ends a lease

  predicate NoneBusy(s: Store, scope: string) {
    forall id :: id in s.tasks && s.tasks[id].scope == scope ==>
      s.tasks[id].status != Running && s.tasks[id].status != WaitingApproval && s.tasks[id].status != Interrupted
  }

  /** What takes the lease of this task away. */
  predicate Ends(cfg: Config, s: Store, op: Op, now: int, id: TaskId)
    requires Sound(cfg) && id in s.leases
  {
    match op
    case Acquire(input, _, fails) => input.taskId == id && !fails && HasIsoForm(now + input.ttlMs)
    case Release(token) => token in s.byToken && s.byToken[token] == id
    case Interrupt(x, _, fence, stop) =>
      && x == id && id in s.tasks && s.tasks[id].status in {Queued, Running} && !Stops(s.attempts, id, stop)
      && (fence.Some? ==> fence.value == s.leases[id].token && now < s.leases[id].expiresAt)
    case Delete(scope) => id in s.tasks && s.tasks[id].scope == scope && NoneBusy(s, scope)
    case Expire(at) => s.leases[id].expiresAt <= at
    case Claim(q, env) =>
      (match ClaimNext(s, q, cfg.aging, cfg.leaseTtlMs, env.(now := now)).1
       case Ok(Some(c)) => c.id == id
       case _ => false)
    case _ => false
  }

  predicate Kept(s: Store, e: Store, id: TaskId)
    requires id in s.leases
  {
    id in e.leases && e.leases[id].fencing == s.leases[id].fencing
  }

  lemma GrantTakes(s: Store, e: Store, m: LeaseMove, now: int, id: TaskId)
    requires Moves(s, e, m, now) && (m.Grant? || m.Keep? || m.LoseToken?)
    requires id in s.leases && s.leases[id].fencing <= s.fencing
    ensures Kept(s, e, id) <==> !(m.Grant? && m.lease.taskId == id)
  {
  }

  lemma ClaimEndsIff(cfg: Config, s: Store, q: Query, env: Env, now: int, id: TaskId)
    requires Sound(cfg) && WellOrdered(s) && id in s.leases && s.leases[id].fencing <= s.fencing
    ensures Kept(s, Apply(cfg, s, Claim(q, env), now), id) <==> !Ends(cfg, s, Claim(q, env), now, id)
  {
    var m := ClaimGrants(cfg, s, q, env.(now := now));
    GrantTakes(s, ClaimNext(s, q, cfg.aging, cfg.leaseTtlMs, env.(now := now)).0, m, now, id);
  }

  lemma RowsEndIff(cfg: Config, s: Store, op: Op, now: int, id: TaskId)
    requires Sound(cfg) && id in s.leases && (op.Create? || op.Append? || op.Delete? || op.Interrupt?)
    ensures Kept(s, Apply(cfg, s, op, now), id) <==> !Ends(cfg, s, op, now, id)
  {
    if op.Delete? {
      assert BusyIn(s, op.scope) == {} <==> NoneBusy(s, op.scope) by {
        if BusyIn(s, op.scope) == {} {
          forall x | x in s.tasks && s.tasks[x].scope == op.scope ensures !Busy(s.tasks[x].status) {
            assert x !in BusyIn(s, op.scope);
          }
        }
      }
    }
  }

  lemma TokensEndIff(cfg: Config, s: Store, op: Op, now: int, id: TaskId)
    requires Sound(cfg) && LeasesKeyed(s) && id in s.leases && s.leases[id].fencing <= s.fencing
    requires op.Acquire? || op.Renew? || op.Release? || op.Expire?
    ensures Kept(s, Apply(cfg, s, op, now), id) <==> !Ends(cfg, s, op, now, id)
  {
  }

  /** Exactly these take it away; every other operation leaves it to its holder. */
  lemma LeaseEndsIff(cfg: Config, s: Store, op: Op, now: int, id: TaskId)
    requires Sound(cfg) && WellOrdered(s) && LeasesKeyed(s) && id in s.leases && s.leases[id].fencing <= s.fencing
    ensures Kept(s, Apply(cfg, s, op, now), id) <==> !Ends(cfg, s, op, now, id)
  {
    if op.Claim? {
      ClaimEndsIff(cfg, s, op.q, op.env, now, id);
    } else if Quiet(op) {
      QuietFrame(cfg, s, op, now);
    } else if op.Acquire? || op.Renew? || op.Release? || op.Expire? {
      TokensEndIff(cfg, s, op, now, id);
    } else {
      RowsEndIff(cfg, s, op, now, id);
    }
  }

  /** A sweep answers exactly the leases it takes away, and those are the ones that expired by the instant. */
  lemma SweepAnswers(s: Store, at: int)
    ensures var (e, swept) := ExpireStaleLeases(s, at);
            && (forall l :: l in swept <==> exists id :: id in s.leases && id !in e.leases && s.leases[id] == l)
            && (forall id :: id in s.leases ==> (id !in e.leases <==> s.leases[id].expiresAt <= at))
            && (forall id :: id in e.leases ==> id in s.leases && e.leases[id] == s.leases[id])
  {
    var (e, swept) := ExpireStaleLeases(s, at);
    forall l | exists id :: id in s.leases && id !in e.leases && s.leases[id] == l ensures l in swept {
      var id :| id in s.leases && id !in e.leases && s.leases[id] == l;
      assert id in StaleTasks(s, at);
    }
  }

  /** A release is answered exactly if the token resolves to its lease, which is then gone. */
  lemma ReleasedIff(s: Store, token: Token)
    requires LeasesKeyed(s)
    ensures var (e, answer) := ReleaseLease(s, token);
            && (answer == Ok(()) <==> token in s.byToken)
            && (answer.Err? ==> answer == Err(LeaseLost) && e == s)
            && (answer.Ok? ==> e == s.(leases := s.leases - {s.byToken[token]}, byToken := s.byToken - {token}))
  {
  }
}
