/**
 Which task a claim takes, told from the fields of the tasks alone, and what becomes of a task whose
 dependencies cannot complete.
 */
module ClaimOrder {
  import opened Wrappers
  import opened TaskModel
  import opened TaskClaim
  import opened ClaimProofs

  // ----------------------------------------------------------------- who may be claimed

  predicate Complete(s: Store, dep: TaskId) {
    dep in s.tasks && s.tasks[dep].status == Completed && s.tasks[dep].deadLetter == None
  }

  /** Queued, of a scope that is free and a kind that is asked for, due, and nothing left to wait for. */
  predicate Claimable(s: Store, q: Query, id: TaskId) {
    && id in s.tasks
    && var task := s.tasks[id];
    && task.status == Queued && task.scope !in q.scopesBusy && (q.kinds == None || task.kind in q.kinds.value)
    && task.availableAt <= q.now && forall dep :: dep in task.dependsOn ==> Complete(s, dep)
  }

  lemma ClaimableIs(s: Store, q: Query, id: TaskId)
    ensures Claimable(s, q, id) <==> Eligible(s, q, id) && IsReady(s, id)
  {
    if id in s.tasks {
      GateVerdict(s, s.tasks[id].dependsOn, false);
      assert forall dep :: Complete(s, dep) <==> Done(s, dep);
    }
  }

  // -------------------------------------------------------------------- what waiting earns

  /** Since `from`, `n` whole intervals have passed; none, if `from` is still to come. */
  predicate Intervals(n: int, from: int, now: int, intervalMs: int) {
    if now < from then n == 0 else n * intervalMs <= now - from < (n + 1) * intervalMs
  }

  /** What a task that waits since `from` has earned: a bonus for each whole interval, up to the cap;
      nothing at all where there is no bonus. */
  ghost predicate HasEarned(e: int, from: int, now: int, aging: Aging) {
    if aging.bonus == 0 then e == 0
    else exists n: int :: Intervals(n, from, now, aging.intervalMs)
                          && e == if aging.maxBonus < n * aging.bonus then aging.maxBonus else n * aging.bonus
  }

  lemma IntervalsAre(from: int, now: int, intervalMs: int) returns (n: int)
    requires intervalMs > 0
    ensures Intervals(n, from, now, intervalMs)
    ensures forall m: int :: Intervals(m, from, now, intervalMs) ==> m == n
    ensures n == (if now < from then 0 else now - from) / intervalMs
  {
    var w := if now < from then 0 else now - from;
    n := w / intervalMs;
    assert w == n * intervalMs + w % intervalMs;
    assert 0 / intervalMs == 0;
    forall m: int | Intervals(m, from, now, intervalMs) ensures m == n {
      if m < n {
        MulMonotone(m + 1, n, intervalMs);
      } else if m > n {
        MulMonotone(n + 1, m, intervalMs);
      }
    }
  }

  /** There is exactly one such amount, and it is added to the base priority. */
  lemma EarnedIs(priority: int, from: int, now: int, aging: Aging) returns (e: int)
    requires aging.intervalMs > 0
    ensures HasEarned(e, from, now, aging)
    ensures forall d: int :: HasEarned(d, from, now, aging) ==> d == e
    ensures EffectivePriority(priority, from, now, aging) == priority + e
  {
    e := 0;
    if aging.bonus != 0 {
      var n := IntervalsAre(from, now, aging.intervalMs);
      e := if aging.maxBonus < n * aging.bonus then aging.maxBonus else n * aging.bonus;
      assert Intervals(n, from, now, aging.intervalMs);
    }
  }

  /** Task `a` goes before task `b`: the gap between their base priorities is made up by what `a` has
      earned beyond `b`; where it is made up exactly, the one that waits longer, then the one created first. */
  ghost predicate GoesBefore(s: Store, q: Query, aging: Aging, a: TaskId, b: TaskId)
    requires a in s.tasks && b in s.tasks
  {
    exists ea: int, eb: int :: Outdoes(s, q, aging, a, b, ea, eb)
  }

  ghost predicate Outdoes(s: Store, q: Query, aging: Aging, a: TaskId, b: TaskId, ea: int, eb: int)
    requires a in s.tasks && b in s.tasks
  {
    var gap := s.tasks[b].priority - s.tasks[a].priority;
    && HasEarned(ea, s.tasks[a].enqueuedAt, q.now, aging) && HasEarned(eb, s.tasks[b].enqueuedAt, q.now, aging)
    && (ea - eb > gap || (ea - eb == gap && ArrivedBefore(s, a, b)))
  }

  lemma GoesBeforeIs(s: Store, q: Query, aging: Aging, a: TaskId, b: TaskId)
    requires a in s.tasks && b in s.tasks && aging.intervalMs > 0
    ensures GoesBefore(s, q, aging, a, b) <==> Precedes(s, q, aging, a, b)
  {
    var ea := EarnedIs(s.tasks[a].priority, s.tasks[a].enqueuedAt, q.now, aging);
    var eb := EarnedIs(s.tasks[b].priority, s.tasks[b].enqueuedAt, q.now, aging);
    if Precedes(s, q, aging, a, b) {
      assert Outdoes(s, q, aging, a, b, ea, eb);
    }
  }

  // ------------------------------------------------------------------------ the claimed task

  lemma NotBack(s: Store, q: Query, aging: Aging, a: TaskId, b: TaskId)
    requires WellOrdered(s) && a in s.tasks && b in s.tasks && aging.intervalMs > 0
    requires Precedes(s, q, aging, a, b)
    ensures !Precedes(s, q, aging, b, a)
  {
    if Before(s.order, a, b) && Before(s.order, b, a) {
      BeforeTransitive(s.order, a, b, a);
    }
  }

  /** A claim that succeeds takes the claimable task that goes before all others, and no other one. */
  lemma ClaimedIff(s: Store, q: Query, aging: Aging, leaseTtlMs: int, env: Env, c: Claimed, id: TaskId)
    requires WellOrdered(s) && aging.intervalMs > 0
    requires ClaimNext(s, q, aging, leaseTtlMs, env).1 == Ok(Some(c))
    ensures c.id == id <==>
            Claimable(s, q, id) && forall x :: Claimable(s, q, x) && x != id ==> GoesBefore(s, q, aging, id, x)
  {
    var story := ClaimTakesFirstReady(s, q, aging, leaseTtlMs, env);
    SuccessfulClaim(story.mid, story.id.value, q, leaseTtlMs, env);
    ClaimableIs(s, q, c.id);
    forall x | Claimable(s, q, x) && x != c.id ensures GoesBefore(s, q, aging, c.id, x) && !GoesBefore(s, q, aging, x, c.id) {
      ClaimableIs(s, q, x);
      GoesBeforeIs(s, q, aging, c.id, x);
      GoesBeforeIs(s, q, aging, x, c.id);
      NotBack(s, q, aging, c.id, x);
    }
  }

  /** With no bonus that is the one of the highest base priority, of these the one that waits longest,
      of these the one created first. */
  lemma HighestPriorityFirst(s: Store, q: Query, aging: Aging, leaseTtlMs: int, env: Env, c: Claimed, x: TaskId)
    requires WellOrdered(s) && aging.intervalMs > 0 && aging.bonus == 0
    requires ClaimNext(s, q, aging, leaseTtlMs, env).1 == Ok(Some(c))
    requires Claimable(s, q, x) && x != c.id
    ensures c.id in s.tasks
    ensures var mine, other := s.tasks[c.id], s.tasks[x];
            && mine.priority >= other.priority
            && (mine.priority == other.priority ==> mine.enqueuedAt <= other.enqueuedAt)
            && (mine.priority == other.priority && mine.enqueuedAt == other.enqueuedAt ==> Before(s.order, c.id, x))
  {
    ClaimedIff(s, q, aging, leaseTtlMs, env, c, c.id);
    var ea: int, eb: int :| Outdoes(s, q, aging, c.id, x, ea, eb);
  }

  /** It answers null exactly if there is no claimable task, unless the host fails on the way. */
  lemma NullIff(s: Store, q: Query, aging: Aging, leaseTtlMs: int, env: Env)
    requires WellOrdered(s) && aging.intervalMs > 0 && !env.fault.AtSettle?
    ensures ClaimNext(s, q, aging, leaseTtlMs, env).1 == Ok(None) <==> forall x :: !Claimable(s, q, x)
  {
    var story := ClaimTakesFirstReady(s, q, aging, leaseTtlMs, env);
    forall x ensures Claimable(s, q, x) <==> Eligible(s, q, x) && IsReady(s, x) {
      ClaimableIs(s, q, x);
    }
  }

  // ------------------------------------------------------------- what ends without running

  /** It can never complete: it is gone, failed, was cancelled, or was given up on. */
  predicate Hopeless(s: Store, dep: TaskId) {
    dep !in s.tasks || s.tasks[dep].status in {Failed, Cancelled} || s.tasks[dep].deadLetter != None
  }

  predicate FirstHopeless(s: Store, deps: seq<TaskId>, i: nat) {
    i < |deps| && Hopeless(s, deps[i]) && forall j :: 0 <= j < i ==> !Hopeless(s, deps[j])
  }

  /** Only cancelled, as far as anybody knows. */
  predicate MerelyCancelled(s: Store, dep: TaskId) {
    dep in s.tasks && s.tasks[dep].status == Cancelled && s.tasks[dep].deadLetter == None
  }

  /** The first hopeless dependency decides: a dependent of a cancelled task is cancelled, any other one
      fails and names it. */
  lemma {:induction false} FirstDecides(s: Store, deps: seq<TaskId>, blocked: bool, i: nat)
    requires FirstHopeless(s, deps, i)
    ensures Evaluate(s, deps, blocked)
            == if MerelyCancelled(s, deps[i]) then Settle(Cancelled, None)
               else Settle(Failed, Some("dependency_failed: " + deps[i]))
    decreases deps
  {
    if i > 0 {
      assert deps[1..][i - 1] == deps[i] && forall j :: 0 <= j < i - 1 ==> deps[1..][j] == deps[j + 1];
      assert !Hopeless(s, deps[0]);
      FirstDecides(s, deps[1..], blocked || s.tasks[deps[0]].status != Completed, i - 1);
    }
  }

  lemma {:induction false} SomeHopeless(s: Store, deps: seq<TaskId>, blocked: bool) returns (i: nat)
    requires Evaluate(s, deps, blocked).Settle?
    ensures FirstHopeless(s, deps, i)
    decreases deps
  {
    i := 0;
    if !Hopeless(s, deps[0]) {
      i := SomeHopeless(s, deps[1..], blocked || s.tasks[deps[0]].status != Completed);
      assert forall j :: 0 <= j < i ==> deps[1..][j] == deps[j + 1];
      i := i + 1;
    }
  }

  /** A queued task as its first hopeless dependency ends it. */
  function EndedBy(s: Store, task: Task, dep: TaskId, now: int): Task {
    if MerelyCancelled(s, dep) then task.(status := Cancelled, finishedAt := Some(now))
    else task.(status := Failed, finishedAt := Some(now), error := Some("dependency_failed: " + dep))
  }

  predicate Waiting(s: Store, ids: seq<TaskId>) {
    forall id :: id in ids ==> id in s.tasks && s.tasks[id].status == Queued
  }

  lemma SettlesAs(s: Store, id: TaskId, env: Env) returns (i: nat)
    requires id in s.tasks && s.tasks[id].status == Queued && VerdictOf(s, id).Settle?
    ensures FirstHopeless(s, s.tasks[id].dependsOn, i)
    ensures TransitionTask(s, id, {Queued}, VerdictOf(s, id).to, SettlePatch(VerdictOf(s, id), env.now), None, env.now)
            == (s.(tasks := s.tasks[id := EndedBy(s, s.tasks[id], s.tasks[id].dependsOn[i], env.now)]),
                Ok(EndedBy(s, s.tasks[id], s.tasks[id].dependsOn[i], env.now)))
  {
    i := SomeHopeless(s, s.tasks[id].dependsOn, false);
    FirstDecides(s, s.tasks[id].dependsOn, false, i);
  }

  lemma {:induction false} WalkLeaves(s: Store, ids: seq<TaskId>, env: Env, n: nat, x: TaskId)
    requires Distinct(ids) && Waiting(s, ids) && x in s.tasks && x !in ids
    ensures x in Walk(s, ids, env, n).end.tasks && Walk(s, ids, env, n).end.tasks[x] == s.tasks[x]
    decreases ids
  {
    if ids != [] {
      var id := ids[0];
      assert id != x && id !in ids[1..];
      if VerdictOf(s, id).Blocked? {
        WalkLeaves(s, ids[1..], env, n, x);
      } else if VerdictOf(s, id).Settle? {
        var i := SettlesAs(s, id, env);
        var s' := s.(tasks := s.tasks[id := EndedBy(s, s.tasks[id], s.tasks[id].dependsOn[i], env.now)]);
        WalkLeaves(s', ids[1..], env, n + 1, x);
      }
    }
  }

  /** The store after the first candidate was ended. */
  function AfterFirst(s: Store, id: TaskId, i: nat, now: int): Store
    requires id in s.tasks && i < |s.tasks[id].dependsOn|
  {
    s.(tasks := s.tasks[id := EndedBy(s, s.tasks[id], s.tasks[id].dependsOn[i], now)])
  }

  lemma FirstEnds(s: Store, ids: seq<TaskId>, env: Env, n: nat) returns (i: nat)
    requires Distinct(ids) && Waiting(s, ids) && ids != []
    requires VerdictOf(s, ids[0]).Settle? && env.fault != AtSettle(n)
    ensures FirstHopeless(s, s.tasks[ids[0]].dependsOn, i)
    ensures Walk(s, ids, env, n) == Walk(AfterFirst(s, ids[0], i, env.now), ids[1..], env, n + 1)
    ensures ids[0] in Walk(s, ids, env, n).end.tasks
    ensures Walk(s, ids, env, n).end.tasks[ids[0]] == EndedBy(s, s.tasks[ids[0]], s.tasks[ids[0]].dependsOn[i], env.now)
  {
    i := SettlesAs(s, ids[0], env);
    assert ids[0] !in ids[1..];
    WalkLeaves(AfterFirst(s, ids[0], i, env.now), ids[1..], env, n + 1, ids[0]);
  }

  lemma FirstStays(s: Store, ids: seq<TaskId>, env: Env, n: nat)
    requires Distinct(ids) && Waiting(s, ids) && ids != []
    requires !VerdictOf(s, ids[0]).Settle? || env.fault == AtSettle(n)
    ensures ids[0] in Walk(s, ids, env, n).end.tasks ==> Walk(s, ids, env, n).end.tasks[ids[0]] == s.tasks[ids[0]]
  {
    assert ids[0] !in ids[1..];
    if VerdictOf(s, ids[0]).Blocked? {
      WalkLeaves(s, ids[1..], env, n, ids[0]);
    }
  }

  /** Every task that a walk ends is ended at its turn, by the first of its dependencies that was hopeless
      then, and at the claim's instant. */
  lemma {:induction false} EndedAtItsTurn(s: Store, ids: seq<TaskId>, env: Env, n: nat, k: nat) returns (turn: Store, i: nat)
    requires Distinct(ids) && Waiting(s, ids) && k < |ids|
    requires ids[k] in Walk(s, ids, env, n).end.tasks && Walk(s, ids, env, n).end.tasks[ids[k]] != s.tasks[ids[k]]
    ensures Walk(s, ids[..k], env, n) == Exhausted(turn)
    ensures FirstHopeless(turn, s.tasks[ids[k]].dependsOn, i)
    ensures Walk(s, ids, env, n).end.tasks[ids[k]] == EndedBy(turn, s.tasks[ids[k]], s.tasks[ids[k]].dependsOn[i], env.now)
    decreases ids
  {
    if VerdictOf(s, ids[0]).Settle? && env.fault != AtSettle(n) {
      i := FirstEnds(s, ids, env, n);
      if k == 0 {
        turn := s;
        assert ids[..0] == [];
      } else {
        var j := FirstEnds(s, ids[..k], env, n);
        assert i == j && ids[..k][1..] == ids[1..][..k - 1] && ids[k] == ids[1..][k - 1];
        turn, i := EndedAtItsTurn(AfterFirst(s, ids[0], i, env.now), ids[1..], env, n + 1, k - 1);
      }
    } else {
      FirstStays(s, ids, env, n);
      assert ids[..k][1..] == ids[1..][..k - 1] && ids[k] == ids[1..][k - 1];
      turn, i := EndedAtItsTurn(s, ids[1..], env, n, k - 1);
    }
  }

  /** So with every task that a claim ends on its way. */
  lemma ClaimEndsRightly(s: Store, q: Query, aging: Aging, leaseTtlMs: int, env: Env, id: TaskId)
    returns (k: nat, turn: Store, i: nat)
    requires WellOrdered(s) && aging.intervalMs > 0
    requires id in s.tasks && id in ClaimNext(s, q, aging, leaseTtlMs, env).0.tasks
    requires ClaimNext(s, q, aging, leaseTtlMs, env).0.tasks[id].status in {Failed, Cancelled} && s.tasks[id].status == Queued
    ensures k < |Schedule(s, q, aging)| && Schedule(s, q, aging)[k] == id
    ensures Walk(s, Schedule(s, q, aging)[..k], env, 0) == Exhausted(turn)
    ensures FirstHopeless(turn, s.tasks[id].dependsOn, i)
    ensures ClaimNext(s, q, aging, leaseTtlMs, env).0.tasks[id] == EndedBy(turn, s.tasks[id], s.tasks[id].dependsOn[i], env.now)
  {
    var story := ClaimTakesFirstReady(s, q, aging, leaseTtlMs, env);
    ScheduleIsOrdered(s, q, aging);
    var ids := Schedule(s, q, aging);
    if story.id.Some? {
      SuccessfulClaim(story.mid, story.id.value, q, leaseTtlMs, env);
      if ClaimTask(story.mid, story.id.value, q, leaseTtlMs, env).1.Err? {
        FailedClaimRestores(story.mid, story.id.value, q, leaseTtlMs, env);
      }
    }
    assert id in story.ended;
    k :| 0 <= k < |ids| && ids[k] == id;
    turn, i := EndedAtItsTurn(s, ids, env, 0, k);
  }
}
