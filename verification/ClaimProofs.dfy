/** What a claim guarantees, stated without the walk or the sort that compute it. */
module ClaimProofs {
  import opened Wrappers
  import opened TaskModel
  import opened TaskClaim

  // ------------------------------------------------------------------- order

  ghost predicate Distinct<T(!new)>(xs: seq<T>) {
    forall i, j :: 0 <= i < j < |xs| ==> xs[i] != xs[j]
  }

  ghost predicate Before(order: seq<TaskId>, a: TaskId, b: TaskId) {
    exists i, j :: 0 <= i < j < |order| && order[i] == a && order[j] == b
  }

  /** The map of tasks and its insertion order agree. */
  ghost predicate WellOrdered(s: Store) {
    Distinct(s.order) && forall id :: id in s.order <==> id in s.tasks
  }

  /** The promised claim order: effective priority first, then age, then creation. */
  ghost predicate Precedes(s: Store, q: Query, aging: Aging, a: TaskId, b: TaskId)
    requires a in s.tasks && b in s.tasks && aging.intervalMs > 0
  {
    var pa, pb := Rank(s, q, aging, a), Rank(s, q, aging, b);
    pa > pb
    || (pa == pb && s.tasks[a].enqueuedAt < s.tasks[b].enqueuedAt)
    || (pa == pb && s.tasks[a].enqueuedAt == s.tasks[b].enqueuedAt && Before(s.order, a, b))
  }

  lemma BeforeTransitive(order: seq<TaskId>, a: TaskId, b: TaskId, c: TaskId)
    requires Distinct(order) && Before(order, a, b) && Before(order, b, c)
    ensures Before(order, a, c)
  {
    var i, j :| 0 <= i < j < |order| && order[i] == a && order[j] == b;
    var j', k :| 0 <= j' < k < |order| && order[j'] == b && order[k] == c;
    assert j == j';
  }

  lemma PrecedesTransitive(s: Store, q: Query, aging: Aging, a: TaskId, b: TaskId, c: TaskId)
    requires a in s.tasks && b in s.tasks && c in s.tasks && aging.intervalMs > 0 && Distinct(s.order)
    requires Precedes(s, q, aging, a, b) && Precedes(s, q, aging, b, c)
    ensures Precedes(s, q, aging, a, c)
  {
    if Before(s.order, a, b) && Before(s.order, b, c) {
      BeforeTransitive(s.order, a, b, c);
    }
  }

  ghost predicate Ascending(s: Store, q: Query, aging: Aging, ids: seq<TaskId>)
    requires AllKnown(s, ids) && aging.intervalMs > 0
  {
    forall i, j :: 0 <= i < j < |ids| ==> Precedes(s, q, aging, ids[i], ids[j])
  }

  lemma {:induction false} InsertKeepsOrder(s: Store, q: Query, aging: Aging, id: TaskId, sorted: seq<TaskId>)
    requires id in s.tasks && AllKnown(s, sorted) && aging.intervalMs > 0 && Distinct(s.order)
    requires Ascending(s, q, aging, sorted)
    requires forall x :: x in sorted ==> Before(s.order, id, x)
    ensures Ascending(s, q, aging, Insert(s, q, aging, id, sorted))
  {
    if sorted != [] {
      var head := sorted[0];
      assert head in sorted;
      if SortsBefore(s, q, aging, head, id) {
        var rest := Insert(s, q, aging, id, sorted[1..]);
        InsertKeepsOrder(s, q, aging, id, sorted[1..]);
        forall x | x in rest ensures Precedes(s, q, aging, head, x) {
          if x != id {
            var k :| 0 <= k < |sorted[1..]| && sorted[1..][k] == x;
            assert sorted[k + 1] == x;
          }
        }
      } else {
        assert Precedes(s, q, aging, id, head);
        forall x | x in sorted ensures Precedes(s, q, aging, id, x) {
          var k :| 0 <= k < |sorted| && sorted[k] == x;
          if k > 0 {
            PrecedesTransitive(s, q, aging, id, head, x);
          }
        }
      }
    }
  }

  lemma {:induction false} SortIsOrdered(s: Store, q: Query, aging: Aging, ids: seq<TaskId>)
    requires AllKnown(s, ids) && aging.intervalMs > 0 && Distinct(s.order)
    requires InOrder(s.order, ids)
    ensures Ascending(s, q, aging, StableSort(s, q, aging, ids))
  {
    if ids != [] {
      SortIsOrdered(s, q, aging, ids[1..]);
      forall x | x in ids[1..] ensures Before(s.order, ids[0], x) {
        var k :| 0 <= k < |ids[1..]| && ids[1..][k] == x;
        assert ids[k + 1] == x;
      }
      InsertKeepsOrder(s, q, aging, ids[0], StableSort(s, q, aging, ids[1..]));
    }
  }

  ghost predicate InOrder(order: seq<TaskId>, ids: seq<TaskId>) {
    forall i, j :: 0 <= i < j < |ids| ==> Before(order, ids[i], ids[j])
  }

  lemma {:induction false} CandidatesInOrder(s: Store, q: Query, order: seq<TaskId>, k: nat)
    requires k <= |order|
    ensures InOrder(order, Candidates(s, q, order[k..]))
    decreases |order| - k
  {
    if k < |order| {
      var c := Candidates(s, q, order[k..]);
      CandidatesInOrder(s, q, order, k + 1);
      assert order[k..][1..] == order[k + 1..];
      CandidatesAre(s, q, order[k + 1..]);
      var rest := Candidates(s, q, order[k + 1..]);
      if Eligible(s, q, order[k]) {
        assert c == [order[k]] + rest;
        forall j | 0 < j < |c| ensures Before(order, c[0], c[j]) {
          assert c[j] == rest[j - 1] && rest[j - 1] in order[k + 1..];
          var m :| k + 1 <= m < |order| && order[m] == c[j];
        }
        forall i, j | 0 < i < j < |c| ensures Before(order, c[i], c[j]) {
          assert c[i] == rest[i - 1] && c[j] == rest[j - 1];
        }
      }
    }
  }

  /** The schedule lists exactly the eligible tasks, in strictly ascending claim order. */
  lemma ScheduleIsOrdered(s: Store, q: Query, aging: Aging)
    requires WellOrdered(s) && aging.intervalMs > 0
    ensures var r := Schedule(s, q, aging);
            AllKnown(s, r) && Ascending(s, q, aging, r) && Distinct(r)
            && (forall x :: x in r <==> Eligible(s, q, x))
  {
    CandidatesInOrder(s, q, s.order, 0);
    assert s.order[0..] == s.order;
    CandidatesAre(s, q, s.order);
    SortIsOrdered(s, q, aging, Candidates(s, q, s.order));
    var r := Schedule(s, q, aging);
    forall i, j | 0 <= i < j < |r| ensures r[i] != r[j] {
      assert Precedes(s, q, aging, r[i], r[j]);
    }
  }

  // ------------------------------------------------------------------- aging

  lemma AgedRankMonotone(p: int, e1: int, e2: int, now: int, aging: Aging)
    requires aging.intervalMs > 0 && aging.bonus >= 0 && e1 <= e2
    ensures EffectivePriority(p, e2, now, aging) <= EffectivePriority(p, e1, now, aging)
  {
    var w1 := if now < e1 then 0 else now - e1;
    var w2 := if now < e2 then 0 else now - e2;
    var k1, k2 := w1 / aging.intervalMs, w2 / aging.intervalMs;
    DivMonotone(w2, w1, aging.intervalMs);
    MulMonotone(k2, k1, aging.bonus);
  }

  lemma DivMonotone(a: int, b: int, d: int)
    requires a <= b && d > 0
    ensures a / d <= b / d
  {
    var qa, qb := a / d, b / d;
    assert b == qb * d + b % d && a == qa * d + a % d;
    if qb < qa {
      MulMonotone(qb + 1, qa, d);
    }
  }

  lemma MulMonotone(a: int, b: int, k: int)
    requires a <= b && 0 <= k
    ensures a * k <= b * k
  {
    assert 0 <= (b - a) * k;
  }

  ghost predicate ArrivedBefore(s: Store, a: TaskId, b: TaskId)
    requires a in s.tasks && b in s.tasks
  {
    s.tasks[a].enqueuedAt < s.tasks[b].enqueuedAt
    || (s.tasks[a].enqueuedAt == s.tasks[b].enqueuedAt && Before(s.order, a, b))
  }

  /** Of two tasks of one base priority, a claim prefers the one that arrived first, in every store
      and at every instant. */
  ghost predicate FirstInFirstOut(aging: Aging)
    requires aging.intervalMs > 0
  {
    forall s: Store, q: Query, a: TaskId, b: TaskId ::
      WellOrdered(s) && a in s.tasks && b in s.tasks && s.tasks[a].priority == s.tasks[b].priority && ArrivedBefore(s, a, b)
      ==> Precedes(s, q, aging, a, b)
  }

  /** The queue stays first-in first-out under aging exactly when the bonus is not negative. */
  lemma FifoIffBonusNotNegative(aging: Aging)
    requires aging.intervalMs > 0
    ensures FirstInFirstOut(aging) <==> aging.bonus >= 0
  {
    if aging.bonus >= 0 {
      forall s: Store, q: Query, a: TaskId, b: TaskId |
        WellOrdered(s) && a in s.tasks && b in s.tasks && s.tasks[a].priority == s.tasks[b].priority && ArrivedBefore(s, a, b)
        ensures Precedes(s, q, aging, a, b)
      {
        AgedRankMonotone(s.tasks[a].priority, s.tasks[a].enqueuedAt, s.tasks[b].enqueuedAt, q.now, aging);
      }
    } else {
      // Wait long enough that the bonus earned lies below the cap, then one step longer.
      var k := if aging.maxBonus < 0 then -aging.maxBonus else 0;
      var s := TwoTasks(aging.intervalMs);
      var q := Query({}, None, "", (k + 1) * aging.intervalMs);
      LongerWaitRanksLower(k, aging);
      assert Rank(s, q, aging, "a") < Rank(s, q, aging, "b");
      assert WellOrdered(s) && ArrivedBefore(s, "a", "b") && !Precedes(s, q, aging, "a", "b");
    }
  }

  function TwoTasks(later: int): Store {
    var first := Task("k", "x", Queued, 0, 0, 0, None, None, None, "", None, None, [], 0, 0, None);
    EMPTY.(tasks := map["a" := first, "b" := first.(enqueuedAt := later)], order := ["a", "b"])
  }

  lemma LongerWaitRanksLower(k: nat, aging: Aging)
    requires aging.intervalMs > 0 && aging.bonus < 0 && 0 <= aging.maxBonus + k
    ensures EffectivePriority(0, 0, (k + 1) * aging.intervalMs, aging)
            < EffectivePriority(0, aging.intervalMs, (k + 1) * aging.intervalMs, aging)
  {
    var d := aging.intervalMs;
    NegativeStep(k, aging.bonus);
    MultipleOf(k, d);
    MultipleOf(k + 1, d);
    assert EffectivePriority(0, 0, (k + 1) * d, aging) == (k + 1) * aging.bonus;
    assert EffectivePriority(0, d, (k + 1) * d, aging) == k * aging.bonus by {
      assert (k + 1) * d - d == k * d;
    }
  }

  lemma NegativeStep(k: int, bonus: int)
    requires bonus < 0 <= k
    ensures k * bonus <= -k && (k + 1) * bonus < k * bonus
  {
    MulMonotone(bonus, -1, k);
    assert k * bonus == bonus * k && (k + 1) * bonus == k * bonus + bonus;
  }

  lemma MultipleOf(k: nat, d: int)
    requires d > 0
    ensures k * d >= 0 && (k * d) / d == k
  {
    MulMonotone(0, k, d);
    var q := (k * d) / d;
    assert k * d == q * d + (k * d) % d;
    if q < k { MulMonotone(q + 1, k, d); }
    if q > k { MulMonotone(k + 1, q, d); }
  }

  // ------------------------------------------------------------ dependencies

  /** The gate opens exactly when every dependency completed and none was given up on, and
      dooms the dependent exactly when some dependency can never complete. */
  lemma {:induction false} GateVerdict(s: Store, deps: seq<TaskId>, blocked: bool)
    ensures Evaluate(s, deps, blocked).Ready? <==> !blocked && forall d :: d in deps ==> Done(s, d)
    ensures Evaluate(s, deps, blocked).Settle? <==> exists d :: d in deps && Doomed(s, d)
    ensures Evaluate(s, deps, blocked).Settle? ==> Evaluate(s, deps, blocked).to in {Failed, Cancelled}
    decreases deps
  {
    if deps != [] {
      assert deps == [deps[0]] + deps[1..];
      assert deps[0] in deps;
      if !Doomed(s, deps[0]) {
        GateVerdict(s, deps[1..], blocked || s.tasks[deps[0]].status != Completed);
        assert forall d :: d in deps <==> d == deps[0] || d in deps[1..];
      } else {
        assert !Done(s, deps[0]);
      }
    }
  }

  ghost predicate IsReady(s: Store, id: TaskId) {
    id in s.tasks && VerdictOf(s, id).Ready?
  }

  // -------------------------------------------------------------------- walk

  /** `b` is `a` ended by the gate: failed or cancelled, with a finish time and a reason. */
  ghost predicate Ended(a: Task, b: Task) {
    a.status == Queued && b.status in {Failed, Cancelled}
    && b == a.(status := b.status, finishedAt := b.finishedAt, error := b.error)
  }

  /** `e` is `s` with exactly the tasks of `ended` ended, and nothing else touched. */
  ghost predicate EndedExactly(s: Store, e: Store, ended: set<TaskId>) {
    && e == s.(tasks := e.tasks)
    && e.tasks.Keys == s.tasks.Keys
    && ended <= s.tasks.Keys
    && forall id :: id in s.tasks ==>
         if id in ended then Ended(s.tasks[id], e.tasks[id]) else e.tasks[id] == s.tasks[id]
  }

  ghost predicate DoomedGiven(s: Store, ended: set<TaskId>, id: TaskId)
    requires id in s.tasks
  {
    exists d :: d in s.tasks[id].dependsOn && (Doomed(s, d) || d in ended)
  }

  /** The candidates a walk over `ids` ends, told from the state before the walk alone: those
      with a dependency that was doomed already or that the walk ended on an earlier turn. */
  ghost function Cascade(s: Store, ended: set<TaskId>, ids: seq<TaskId>): set<TaskId>
    requires AllKnown(s, ids)
    decreases ids
  {
    if ids == [] then ended
    else Cascade(s, if DoomedGiven(s, ended, ids[0]) then ended + {ids[0]} else ended, ids[1..])
  }

  /** Ending queued tasks neither makes a task runnable nor keeps one from being so, and
      dooms exactly their dependents. */
  lemma VerdictGiven(s: Store, now: Store, ended: set<TaskId>, id: TaskId)
    requires EndedExactly(s, now, ended) && id in s.tasks
    ensures IsReady(now, id) <==> IsReady(s, id)
    ensures VerdictOf(now, id).Settle? <==> DoomedGiven(s, ended, id)
    ensures VerdictOf(now, id).Settle? ==> VerdictOf(now, id).to in {Failed, Cancelled}
  {
    var deps := s.tasks[id].dependsOn;
    assert now.tasks[id].dependsOn == deps;
    GateVerdict(s, deps, false);
    GateVerdict(now, deps, false);
    forall d ensures (Done(s, d) <==> Done(now, d)) && (Doomed(now, d) <==> Doomed(s, d) || d in ended) {
      if d in s.tasks && d !in ended {
        assert now.tasks[d] == s.tasks[d];
      } else if d in ended {
        assert Ended(s.tasks[d], now.tasks[d]);
      }
    }
  }

  ghost predicate NoneReady(s: Store, ids: seq<TaskId>) {
    forall id :: id in ids ==> !IsReady(s, id)
  }

  /** The walk `w` over `ids`, told from the state `s` before it: `k` candidates had their
      turn, none of them runnable; it hits the first runnable one. */
  ghost predicate Explains(s: Store, ended: set<TaskId>, ids: seq<TaskId>, env: Env, w: Walked, k: nat)
    requires AllKnown(s, ids)
  {
    && k <= |ids|
    && EndedExactly(s, w.end, Cascade(s, ended, ids[..k]))
    && NoneReady(s, ids[..k])
    && (w.Exhausted? ==> k == |ids|)
    && (w.Hit? ==> k < |ids| && w.id == ids[k] && IsReady(s, w.id))
    && (w.Stopped? ==> w.error == HostFault && env.fault.AtSettle?)
  }

  lemma OneMoreTurn(s: Store, ended: set<TaskId>, ids: seq<TaskId>, env: Env, w: Walked, k: nat)
    requires ids != [] && AllKnown(s, ids) && !IsReady(s, ids[0])
    requires Explains(s, if DoomedGiven(s, ended, ids[0]) then ended + {ids[0]} else ended, ids[1..], env, w, k)
    ensures Explains(s, ended, ids, env, w, k + 1)
  {
    assert ids[..k + 1][1..] == ids[1..][..k];
    assert ids[..k + 1] == [ids[0]] + ids[1..][..k];
  }

  /** The settle of one candidate. */
  lemma SettleOne(s: Store, now: Store, ended: set<TaskId>, id: TaskId, env: Env)
    requires EndedExactly(s, now, ended) && id in s.tasks && id !in ended
    requires s.tasks[id].status == Queued && VerdictOf(now, id).Settle?
    ensures var (now', answer) := TransitionTask(now, id, {Queued}, VerdictOf(now, id).to,
                                    SettlePatch(VerdictOf(now, id), env.now), None, env.now);
            answer.Ok? && EndedExactly(s, now', ended + {id})
  {
    VerdictGiven(s, now, ended, id);
    assert now.tasks[id] == s.tasks[id];
    var verdict := VerdictOf(now, id);
    var task := ApplyPatch(s.tasks[id], verdict.to, SettlePatch(verdict, env.now));
    assert Ended(s.tasks[id], task);
    var now' := TransitionTask(now, id, {Queued}, verdict.to, SettlePatch(verdict, env.now), None, env.now).0;
    assert now' == now.(tasks := now.tasks[id := task]);
  }

  lemma {:induction false} WalkMeaning(s: Store, ended: set<TaskId>, now: Store, ids: seq<TaskId>, env: Env, n: nat)
    returns (k: nat)
    requires EndedExactly(s, now, ended)
    requires Distinct(ids) && forall id :: id in ids ==> id in s.tasks && s.tasks[id].status == Queued && id !in ended
    ensures Explains(s, ended, ids, env, Walk(now, ids, env, n), k)
    decreases ids
  {
    k := 0;
    if ids != [] {
      var id := ids[0];
      assert now.tasks[id] == s.tasks[id];
      VerdictGiven(s, now, ended, id);
      var v := VerdictOf(now, id);
      if v.Blocked? {
        k := WalkMeaning(s, ended, now, ids[1..], env, n);
        OneMoreTurn(s, ended, ids, env, Walk(now, ids, env, n), k);
        k := k + 1;
      } else if v.Settle? && env.fault != AtSettle(n) {
        SettleOne(s, now, ended, id, env);
        var now' := TransitionTask(now, id, {Queued}, v.to, SettlePatch(v, env.now), None, env.now).0;
        k := WalkMeaning(s, ended + {id}, now', ids[1..], env, n + 1);
        OneMoreTurn(s, ended, ids, env, Walk(now, ids, env, n), k);
        k := k + 1;
      }
    }
  }

  // ------------------------------------------------------------ one claim

  /** The claim got as far as writing its attempt row. */
  predicate WroteAttempt(env: Env) {
    env.fault !in {AtStart, AtAttemptId, AtAttemptClock}
  }

  /** A claim that throws while replacing a lease has already dropped the old lease's token. */
  predicate LosesToken(s: Store, id: TaskId, env: Env) {
    WroteAttempt(env) && id in s.leases && s.leases[id].token in s.byToken
  }

  /** A claim handed an attempt id that is in use has overwritten that attempt. */
  predicate OverwritesAttempt(s: Store, id: TaskId, q: Query, env: Env)
    requires id in s.tasks
  {
    WroteAttempt(env) && env.attemptId in s.attempts
    && s.attempts[env.attemptId]
       != Attempt(id, s.tasks[id].attemptCount + 1, AttemptRunning, q.owner, env.now, None, None)
  }

  /** The undo, from any state a failing claim gives up in. */
  lemma UndoRestores(was: Store, now: Store, id: TaskId)
    requires id in was.tasks && now.tasks.Keys == was.tasks.Keys
    requires now.tasks == was.tasks[id := now.tasks[id]]
    requires now.tasks[id] == was.tasks[id].(status := now.tasks[id].status, startedAt := now.tasks[id].startedAt,
                                             attemptCount := now.tasks[id].attemptCount)
    requires now.leases == was.leases && now.fencing in {was.fencing, was.fencing + 1}
    requires was.attempts.Keys <= now.attempts.Keys
    ensures var u := Undo(CaptureOf(was, id), now, id);
            && u.tasks == was.tasks && u.leases == was.leases && u.byToken == now.byToken
            && u.fencing == was.fencing && u.order == now.order && u.events == now.events && u.eventIds == now.eventIds
            && u.attempts.Keys == was.attempts.Keys
            && forall a :: a in was.attempts ==> u.attempts[a] == now.attempts[a]
  {
  }

  /** The state a claim gives up in once its attempt row is written. */
  function GaveUpAtLease(s: Store, id: TaskId, q: Query, env: Env): Store
    requires id in s.tasks
  {
    DrawFencing(CreateAttempt(Started(s, id, env).0, env.attemptId, id, q.owner, Some(env.now)).0, id)
  }

  lemma FailureAtLease(s: Store, id: TaskId, q: Query, env: Env)
    requires id in s.tasks && s.tasks[id].status == Queued && WroteAttempt(env)
    ensures var u := Undo(CaptureOf(s, id), GaveUpAtLease(s, id, q, env), id);
            && u.tasks == s.tasks && u.leases == s.leases && u.fencing == s.fencing
            && u.attempts.Keys == s.attempts.Keys
            && (env.attemptId !in s.attempts ==> u.attempts == s.attempts)
            && (u == s <==> !LosesToken(s, id, env) && !OverwritesAttempt(s, id, q, env))
  {
    var now := GaveUpAtLease(s, id, q, env);
    UndoRestores(s, now, id);
    var u := Undo(CaptureOf(s, id), now, id);
    var row := Attempt(id, s.tasks[id].attemptCount + 1, AttemptRunning, q.owner, env.now, None, None);
    assert now.attempts == s.attempts[env.attemptId := row];
    if LosesToken(s, id, env) {
      assert s.leases[id].token !in u.byToken;
    } else {
      assert u.byToken == s.byToken;
    }
    if OverwritesAttempt(s, id, q, env) {
      assert u.attempts[env.attemptId] == row;
    } else {
      assert u.attempts == s.attempts;
    }
  }

  /** The undo removes no row of an attempt that was there before, so an overwritten one stays so. */
  lemma OverwrittenRowStays(s: Store, id: TaskId, q: Query, leaseTtlMs: int, env: Env)
    requires id in s.tasks && s.tasks[id].status == Queued && WroteAttempt(env) && env.attemptId in s.attempts
    requires ClaimTask(s, id, q, leaseTtlMs, env).1.Err?
    ensures var e := ClaimTask(s, id, q, leaseTtlMs, env).0;
            env.attemptId in e.attempts && e.attempts[env.attemptId]
              == Attempt(id, s.tasks[id].attemptCount + 1, AttemptRunning, q.owner, env.now, None, None)
  {
    var now := GaveUpAtLease(s, id, q, env);
    assert ClaimTask(s, id, q, leaseTtlMs, env).0 == Undo(CaptureOf(s, id), now, id);
    UndoRestores(s, now, id);
  }

  lemma FailureBeforeAttempt(s: Store, id: TaskId, q: Query, leaseTtlMs: int, env: Env)
    requires id in s.tasks && s.tasks[id].status == Queued && !WroteAttempt(env)
    ensures ClaimTask(s, id, q, leaseTtlMs, env).0 == s
  {
    UndoRestores(s, s, id);
    var s1 := Started(s, id, env).0;
    UndoRestores(s, s1, id);
    UndoRestores(s, CountAttempt(s1, id), id);
    var u := ClaimTask(s, id, q, leaseTtlMs, env).0;
    assert u.attempts == s.attempts;
  }

  /** A failed claim leaves no trace at all, wherever it failed, unless it failed in the lease
      step while the task had an indexed lease, or reused the id of another attempt. */
  lemma FailedClaimRestores(s: Store, id: TaskId, q: Query, leaseTtlMs: int, env: Env)
    requires id in s.tasks && s.tasks[id].status == Queued
    requires ClaimTask(s, id, q, leaseTtlMs, env).1.Err?
    ensures ClaimTask(s, id, q, leaseTtlMs, env).0 == s
            <==> !LosesToken(s, id, env) && !OverwritesAttempt(s, id, q, env)
    ensures ClaimTask(s, id, q, leaseTtlMs, env).0.tasks == s.tasks
    ensures ClaimTask(s, id, q, leaseTtlMs, env).0.leases == s.leases
    ensures ClaimTask(s, id, q, leaseTtlMs, env).0.fencing == s.fencing
    ensures ClaimTask(s, id, q, leaseTtlMs, env).0.attempts.Keys == s.attempts.Keys
    ensures env.attemptId !in s.attempts ==> ClaimTask(s, id, q, leaseTtlMs, env).0.attempts == s.attempts
  {
    if WroteAttempt(env) {
      assert ClaimTask(s, id, q, leaseTtlMs, env).0 == Undo(CaptureOf(s, id), GaveUpAtLease(s, id, q, env), id);
      FailureAtLease(s, id, q, env);
    } else {
      FailureBeforeAttempt(s, id, q, leaseTtlMs, env);
    }
  }

  /** A successful claim: one task started, one attempt row, one lease with a fencing token
      above every token drawn before, and nothing else. */
  ghost predicate ClaimedExactly(s: Store, e: Store, c: Claimed, q: Query, leaseTtlMs: int, env: Env) {
    && c.id in s.tasks
    && s.tasks[c.id].status == Queued
    && var count := s.tasks[c.id].attemptCount;
    && c.task == s.tasks[c.id].(status := Running, startedAt := Some(env.now))
    && c.attempt == Attempt(c.id, count + 1, AttemptRunning, q.owner, env.now, None, None)
    && c.attemptId == env.attemptId
    && c.lease == Lease(c.id, env.attemptId, q.owner, env.token, s.fencing + 1, env.now + leaseTtlMs)
    && e.tasks == s.tasks[c.id := c.task.(attemptCount := count + 1)]
    && e.attempts == s.attempts[env.attemptId := c.attempt]
    && e.leases == s.leases[c.id := c.lease]
    && e.byToken == (if c.id in s.leases then s.byToken - {s.leases[c.id].token} else s.byToken)[env.token := c.id]
    && e.fencing == s.fencing + 1
    && e.order == s.order && e.events == s.events && e.eventIds == s.eventIds
  }

  lemma SuccessfulClaim(s: Store, id: TaskId, q: Query, leaseTtlMs: int, env: Env)
    requires id in s.tasks && s.tasks[id].status == Queued
    ensures var (e, answer) := ClaimTask(s, id, q, leaseTtlMs, env);
            answer.Ok? ==> answer.value.id == id && ClaimedExactly(s, e, answer.value, q, leaseTtlMs, env)
    ensures ClaimTask(s, id, q, leaseTtlMs, env).1.Ok?
            <==> HasIsoForm(env.now + leaseTtlMs)
                 && env.fault !in {AtStart, AtAttemptId, AtAttemptClock, AtLeaseClock}
  {
  }

  // --------------------------------------------------------- the whole claim

  /** What one call of claimNext did, as three stages: the walk ended the tasks `ended`, giving
      `mid`; then it stopped, or failed to claim `id`, or claimed it. */
  datatype ClaimStory = ClaimStory(mid: Store, ended: set<TaskId>, id: Option<TaskId>)

  ghost predicate Tells(story: ClaimStory, s: Store, q: Query, aging: Aging, leaseTtlMs: int, env: Env)
    requires WellOrdered(s) && aging.intervalMs > 0
  {
    var (e, answer) := ClaimNext(s, q, aging, leaseTtlMs, env);
    && EndedExactly(s, story.mid, story.ended)
    && (forall x :: x in story.ended ==> Eligible(s, q, x) && !IsReady(s, x))
    && match story.id
       case None => e == story.mid && (answer == Ok(None) || (answer == Err(HostFault) && env.fault.AtSettle?))
       case Some(id) =>
         && Eligible(s, q, id) && IsReady(s, id) && story.mid.tasks[id] == s.tasks[id]
         && e == ClaimTask(story.mid, id, q, leaseTtlMs, env).0
         && match ClaimTask(story.mid, id, q, leaseTtlMs, env).1
            case Ok(c) => answer == Ok(Some(c))
            case Err(err) => answer == Err(err)
  }

  function HitOf(w: Walked): Option<TaskId> {
    if w.Hit? then Some(w.id) else None
  }

  lemma {:induction false} CascadeWithin(s: Store, ended: set<TaskId>, ids: seq<TaskId>)
    requires AllKnown(s, ids)
    ensures forall x :: x in Cascade(s, ended, ids) ==> x in ended || x in ids
    decreases ids
  {
    if ids != [] {
      CascadeWithin(s, if DoomedGiven(s, ended, ids[0]) then ended + {ids[0]} else ended, ids[1..]);
      assert ids == [ids[0]] + ids[1..];
    }
  }

  /** claimNext takes the first runnable task of the promised order and answers null exactly
      when no eligible task is runnable. */
  lemma ClaimTakesFirstReady(s: Store, q: Query, aging: Aging, leaseTtlMs: int, env: Env) returns (story: ClaimStory)
    requires WellOrdered(s) && aging.intervalMs > 0
    ensures Tells(story, s, q, aging, leaseTtlMs, env)
    ensures story.mid == Walk(s, Schedule(s, q, aging), env, 0).end
    ensures story.id == HitOf(Walk(s, Schedule(s, q, aging), env, 0))
    // The task the claim turns to is the least runnable one.
    ensures story.id.Some? ==>
              forall x :: Eligible(s, q, x) && IsReady(s, x) && x != story.id.value ==>
                Precedes(s, q, aging, story.id.value, x)
    // Everything the walk ended comes before it.
    ensures story.id.Some? ==> forall x :: x in story.ended ==> Precedes(s, q, aging, x, story.id.value)
    // Null means nothing eligible is runnable, before the call and after it.
    ensures ClaimNext(s, q, aging, leaseTtlMs, env).1 == Ok(None) ==>
              forall x :: Eligible(s, q, x) ==> !IsReady(s, x)
    ensures ClaimNext(s, q, aging, leaseTtlMs, env).1 == Ok(None) ==>
              forall x :: Eligible(story.mid, q, x) ==> !IsReady(story.mid, x)
    ensures (forall x :: Eligible(s, q, x) ==> !IsReady(s, x)) && !env.fault.AtSettle? ==>
              ClaimNext(s, q, aging, leaseTtlMs, env).1 == Ok(None)
  {
    ScheduleIsOrdered(s, q, aging);
    var ids := Schedule(s, q, aging);
    var k := WalkMeaning(s, {}, s, ids, env, 0);
    var w := Walk(s, ids, env, 0);
    var ended := Cascade(s, {}, ids[..k]);
    CascadeWithin(s, {}, ids[..k]);
    forall x | x in ended ensures x in ids[..k] && Eligible(s, q, x) && !IsReady(s, x) {
      assert x in ids;
    }
    story := ClaimStory(w.end, ended, HitOf(w));
    if w.Hit? {
      assert ids[k] in ids;
      HitIsLeast(s, q, aging, ids, k);
    } else if w.Exhausted? {
      assert ids[..k] == ids;
      forall x | Eligible(w.end, q, x) ensures !IsReady(w.end, x) {
        VerdictGiven(s, w.end, ended, x);
        assert x in ids;
      }
    }
  }

  /** A call of claimNext that fails anywhere leaves the tasks it had ended on the way, and of
      everything else no trace, unless its claim failed in the lease step of a task with an indexed
      lease or reused the id of another attempt. */
  lemma FailedCallRestores(s: Store, q: Query, aging: Aging, leaseTtlMs: int, env: Env) returns (story: ClaimStory)
    requires WellOrdered(s) && aging.intervalMs > 0
    requires ClaimNext(s, q, aging, leaseTtlMs, env).1.Err?
    ensures Tells(story, s, q, aging, leaseTtlMs, env)
    ensures var e := ClaimNext(s, q, aging, leaseTtlMs, env).0;
            && e.tasks == story.mid.tasks && e.leases == s.leases && e.fencing == s.fencing
            && e.attempts.Keys == s.attempts.Keys
            && (e == s.(tasks := e.tasks) <==>
                  story.id.None?
                  || (!LosesToken(s, story.id.value, env) && !OverwritesAttempt(s, story.id.value, q, env)))
  {
    story := ClaimTakesFirstReady(s, q, aging, leaseTtlMs, env);
    if story.id.Some? {
      FailedClaimRestores(story.mid, story.id.value, q, leaseTtlMs, env);
    }
  }

  lemma HitIsLeast(s: Store, q: Query, aging: Aging, ids: seq<TaskId>, k: nat)
    requires WellOrdered(s) && aging.intervalMs > 0 && k < |ids|
    requires AllKnown(s, ids) && Ascending(s, q, aging, ids) && NoneReady(s, ids[..k])
    requires forall x :: x in ids <==> Eligible(s, q, x)
    ensures forall x :: Eligible(s, q, x) && IsReady(s, x) && x != ids[k] ==> Precedes(s, q, aging, ids[k], x)
    ensures forall x :: x in ids[..k] ==> Precedes(s, q, aging, x, ids[k])
  {
    forall x | Eligible(s, q, x) && IsReady(s, x) && x != ids[k] ensures Precedes(s, q, aging, ids[k], x) {
      assert x in ids;
      var j :| 0 <= j < |ids| && ids[j] == x;
      assert forall m :: 0 <= m < k ==> ids[..k][m] == ids[m] && !IsReady(s, ids[m]);
    }
  }

  ghost function QueuedSet(s: Store): set<TaskId> {
    set id | id in s.tasks && s.tasks[id].status == Queued
  }

  lemma WalkShrinksQueue(s: Store, mid: Store, ended: set<TaskId>)
    requires EndedExactly(s, mid, ended)
    ensures QueuedSet(mid) == QueuedSet(s) - ended
    ensures ended <= QueuedSet(s) && (ended == {} ==> mid.tasks == s.tasks)
  {
    forall x | x in s.tasks ensures x in QueuedSet(mid) <==> x in QueuedSet(s) && x !in ended {}
  }

  /** A claim that changes any task leaves strictly fewer queued tasks, whatever it answers. */
  lemma ClaimShrinksQueue(s: Store, q: Query, aging: Aging, leaseTtlMs: int, env: Env)
    requires WellOrdered(s) && aging.intervalMs > 0
    ensures var e := ClaimNext(s, q, aging, leaseTtlMs, env).0;
            QueuedSet(e) <= QueuedSet(s) && (e.tasks != s.tasks ==> QueuedSet(e) < QueuedSet(s))
  {
    var e := ClaimNext(s, q, aging, leaseTtlMs, env).0;
    var story := ClaimTakesFirstReady(s, q, aging, leaseTtlMs, env);
    var mid := story.mid;
    WalkShrinksQueue(s, mid, story.ended);
    if story.id.Some? {
      ClaimTaskShrinksQueue(mid, story.id.value, q, leaseTtlMs, env);
    }
  }

  lemma ClaimTaskShrinksQueue(s: Store, id: TaskId, q: Query, leaseTtlMs: int, env: Env)
    requires id in s.tasks && s.tasks[id].status == Queued
    ensures var e := ClaimTask(s, id, q, leaseTtlMs, env).0;
            e.tasks == s.tasks || QueuedSet(e) == QueuedSet(s) - {id}
  {
    if ClaimTask(s, id, q, leaseTtlMs, env).1.Ok? {
      SuccessfulClaim(s, id, q, leaseTtlMs, env);
    } else {
      FailedClaimRestores(s, id, q, leaseTtlMs, env);
    }
  }
}
