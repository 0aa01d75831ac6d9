/** Deleting a scope, the rows that name a task, and why a claim needs the gate. */
module TaskRows {
  import opened Wrappers
  import opened TaskModel
  import opened TaskClaim
  import opened ClaimProofs
  import opened TaskFrames
  import opened TaskRuns
  import opened TaskHistory

  ghost predicate Busies(s: Store, scope: string) {
    exists id :: id in s.tasks && s.tasks[id].scope == scope && Busy(s.tasks[id].status)
  }

  /** A delete is refused, and changes nothing, exactly when a task of the scope is live;
      otherwise every row of every task of the scope is gone and every other row stays. */
  lemma DeleteIsAllOrNothing(s: Store, scope: string)
    requires LeasesKeyed(s)
    ensures var (e, answer) := DeleteByScope(s, scope);
            && (answer.Err? <==> Busies(s, scope))
            && (answer.Err? ==> e == s)
            && (answer.Ok? ==> answer.value == |set id | id in s.tasks && id !in e.tasks|)
            && (answer.Ok? ==>
                  && (forall id :: id in e.tasks <==> id in s.tasks && s.tasks[id].scope != scope)
                  && (forall id :: id in s.tasks && s.tasks[id].scope == scope ==>
                        && id !in e.tasks && id !in e.order && id !in e.leases && id !in e.events && id !in e.eventIds
                        && (forall a :: a in e.attempts ==> e.attempts[a].taskId != id)
                        && (forall k :: k in e.byToken ==> e.byToken[k] != id))
                  && (forall id :: id in e.tasks ==>
                        && e.tasks[id] == s.tasks[id] && Log(e, id) == Log(s, id)
                        && (id in s.leases ==> id in e.leases && e.leases[id] == s.leases[id])
                        && (forall a :: a in s.attempts && s.attempts[a].taskId == id ==>
                              a in e.attempts && e.attempts[a] == s.attempts[a]))
                  && e.fencing == s.fencing)
  {
    var e := DeleteByScope(s, scope).0;
    if Busies(s, scope) {
      var id :| id in s.tasks && s.tasks[id].scope == scope && Busy(s.tasks[id].status);
      assert id in BusyIn(s, scope);
    } else {
      assert BusyIn(s, scope) == {};
      assert InScope(s, scope) == set id | id in s.tasks && id !in e.tasks;
      forall k | k in e.byToken ensures s.byToken[k] !in InScope(s, scope) {
        assert s.leases[s.byToken[k]].token == k;
      }
    }
  }

  // ----------------------------------------------------------------- orphans

  /** No attempt, lease or log names a task that does not exist. Tokens resolve to present
      leases (LeasesKeyed), so neither does a token. */
  ghost predicate NoOrphans(s: Store) {
    && s.leases.Keys <= s.tasks.Keys
    && s.events.Keys <= s.tasks.Keys
    && forall a :: a in s.attempts ==> s.attempts[a].taskId in s.tasks
  }

  /** Leases are only acquired for tasks that exist. */
  predicate LeasesRealTask(s: Store, op: Op) {
    op.Acquire? ==> op.acquire.taskId in s.tasks
  }

  lemma ClaimLeasesRealTask(cfg: Config, s: Store, q: Query, env: Env)
    requires Sound(cfg) && WellOrdered(s)
    ensures match ClaimNext(s, q, cfg.aging, cfg.leaseTtlMs, env).1
            case Ok(Some(c)) => c.lease.taskId in s.tasks
            case _ => true
  {
    var story := ClaimTakesFirstReady(s, q, cfg.aging, cfg.leaseTtlMs, env);
    if story.id.Some? {
      SuccessfulClaim(story.mid, story.id.value, q, cfg.leaseTtlMs, env);
    }
  }

  lemma StepKeepsNoOrphans(cfg: Config, s: Store, op: Op, now: int)
    requires Sound(cfg) && StoreInv(s) && NoOrphans(s) && LeasesRealTask(s, op)
    ensures NoOrphans(Apply(cfg, s, op, now))
  {
    if op.Delete? {
      DeleteIsAllOrNothing(s, op.scope);
    } else if op.Create? || op.Append? {
      RowsAddedKeepNoOrphans(cfg, s, op, now);
    } else {
      var m := Classify(cfg, s, op, now);
      StepFrame(cfg, s, op, now);
      if op.Claim? {
        ClaimLeasesRealTask(cfg, s, op.q, op.env.(now := now));
      }
    }
  }

  lemma RowsAddedKeepNoOrphans(cfg: Config, s: Store, op: Op, now: int)
    requires Sound(cfg) && NoOrphans(s) && (op.Create? || op.Append?)
    ensures NoOrphans(Apply(cfg, s, op, now))
  {
  }

  ghost predicate RealRun(cfg: Config, w: World, run: seq<Entry>)
    requires Sound(cfg)
    decreases run
  {
    run == [] || (LeasesRealTask(w.s, run[0].op) && RealRun(cfg, Next(cfg, w, run[0]), run[1..]))
  }

  lemma {:induction false} RunKeepsNoOrphans(cfg: Config, w: World, run: seq<Entry>)
    requires Sound(cfg) && Inv(w) && NoOrphans(w.s) && FairRun(cfg, w, run) && RealRun(cfg, w, run)
    ensures NoOrphans(Run(cfg, w, run).s) && LeasesKeyed(Run(cfg, w, run).s)
    decreases run
  {
    if run != [] {
      var m := StepKeepsInv(cfg, w, run[0]);
      StepKeepsNoOrphans(cfg, w.s, run[0].op, run[0].now);
      RunKeepsNoOrphans(cfg, Next(cfg, w, run[0]), run[1..]);
    }
  }

  // ---------------------------------------------------------------- the gate

  /** A claim is one unit of work only because of the gate. Let another caller acquire a lease
      between a claim's first write and its failure: the failed claim drew no token, yet finds
      the counter one past its capture, rewinds it, and the next lease repeats a token that is
      in a caller's hands. */
  lemma UngatedRewindRepeatsToken(s: Store, env: Env)
    requires "t" in s.tasks && s.tasks["t"].status == Queued
    requires "u" !in s.leases && "v" !in s.leases && "t" !in s.leases && HasIsoForm(env.now)
    ensures var captured := CaptureOf(s, "t");
            var s1 := Started(s, "t", env).0;
            var (s2, mine) := AcquireLease(s1, AcquireInput("u", "a", "o", 0), "k", Some(env.now));
            var s3 := Undo(captured, s2, "t");
            var (s4, yours) := AcquireLease(s3, AcquireInput("v", "b", "p", 0), "l", Some(env.now));
            mine.Ok? && yours.Ok? && mine.value.fencing == yours.value.fencing
            && "u" in s4.leases && "v" in s4.leases
  {
  }
}
