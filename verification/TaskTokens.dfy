/** Lease tokens over whole runs: a token that stops being usable never becomes usable again,
    and when the reverse index of tokens is the exact inverse of the leases. */
module TaskTokens {
  import opened Wrappers
  import opened TaskModel
  import opened TaskClaim
  import opened ClaimProofs
  import opened TaskFrames
  import opened TaskRuns
  import opened TaskHistory

  /** The token names a lease that has not expired. */
  ghost predicate Usable(s: Store, token: Token, now: int) {
    exists id :: id in s.leases && s.leases[id].token == token && now < s.leases[id].expiresAt
  }

  ghost predicate WasHanded(w: World, token: Token) {
    exists i :: 0 <= i < |w.handed| && w.handed[i].token == token
  }

  /** The operation presents `token` as its proof of ownership. */
  predicate FencedBy(op: Op, token: Token) {
    match op
    case Interrupt(_, _, fence, _) => fence == Some(token)
    case Transition(_, _, _, _, fence) => fence == Some(token)
    case FinishAttempt(_, _, _, fence, _) => fence == Some(token)
    case DeadLetter(_, _, fence) => fence == Some(token)
    case Renew(t, _) => t == token
    case Append(_, _, t) => t == token
    case Progress(_, _, t) => t == token
    case _ => false
  }

  function ErrorOf<T>(answer: Answer<T>): Option<Error> {
    match answer
    case Ok(_) => None
    case Err(e) => Some(e)
  }

  /** The error a fenced operation answers, if it answers one. */
  function Refused(s: Store, op: Op, now: int): Option<Error> {
    match op
    case Interrupt(id, reason, fence, stop) => ErrorOf(InterruptTask(s, id, reason, fence, now, stop).1)
    case Transition(id, from, to, patch, fence) => ErrorOf(TransitionTask(s, id, from, to, patch, fence, now).1)
    case FinishAttempt(attemptId, status, error, fence, fails) =>
      ErrorOf(EndAttempt(s, attemptId, status, error, fence, now, Clock(fails, now)).1)
    case DeadLetter(id, reason, fence) => ErrorOf(MarkDeadLettered(s, id, reason, fence, now).1)
    case Renew(token, ttlMs) => ErrorOf(RenewLease(s, token, ttlMs, now).1)
    case Append(id, batch, token) => ErrorOf(AppendEvents(s, id, batch, token, now).1)
    case Progress(id, progress, token) => ErrorOf(UpdateProgress(s, id, progress, token, now).1)
    case _ => None
  }

  /** The refusal of a token: the lease is lost, unless the call is already refused for naming
      nothing or for an instant that does not parse. */
  function RefusalOf(s: Store, op: Op): Error {
    match op
    case Transition(id, _, _, patch, _) =>
      if patch.availableAt == Some(Unparsable) then InvalidTimestamp else if id in s.tasks then LeaseLost else NotFound
    case FinishAttempt(attemptId, _, _, _, _) => if attemptId in s.attempts then LeaseLost else NotFound
    case DeadLetter(id, _, _) => if id in s.tasks then LeaseLost else NotFound
    case Progress(id, _, _) => if id in s.tasks then LeaseLost else NotFound
    case _ => LeaseLost
  }

  /** Whoever presents an unusable token is refused, by every fenced operation, with nothing
      changed. Only a release may still act on it, and only to drop a lease that expired and was
      not swept. */
  lemma UnusableIsRefused(cfg: Config, s: Store, token: Token, now: int, op: Op)
    requires Sound(cfg) && LeasesKeyed(s) && !Usable(s, token, now)
    ensures FencedBy(op, token) ==> Apply(cfg, s, op, now) == s && Refused(s, op, now) == Some(RefusalOf(s, op))
    ensures ReleaseLease(s, token).1.Ok? ==>
              exists id :: id in s.leases && s.leases[id].token == token && s.leases[id].expiresAt <= now
  {
    forall id ensures !Current(s, id, token, now) {}
    if FencedBy(op, token) {
      RefusedWrites(cfg, s, token, now, op);
    }
  }

  lemma RefusedWrites(cfg: Config, s: Store, token: Token, now: int, op: Op)
    requires Sound(cfg) && forall id :: !Current(s, id, token, now)
    requires FencedBy(op, token)
    ensures !op.Renew? ==> Apply(cfg, s, op, now) == s && Refused(s, op, now) == Some(RefusalOf(s, op))
  {
  }

  lemma MoveKeepsUnusable(s: Store, e: Store, m: LeaseMove, was: int, now: int, token: Token)
    requires Moves(s, e, m, now) && was <= now && !Usable(s, token, was)
    requires m.Grant? ==> m.lease.token != token
    ensures !Usable(e, token, now)
  {
  }

  lemma StepKeepsUnusable(cfg: Config, w: World, entry: Entry, token: Token)
    requires Sound(cfg) && Inv(w) && Fair(w, entry)
    requires WasHanded(w, token) && !Usable(w.s, token, w.now)
    ensures WasHanded(Next(cfg, w, entry), token)
    ensures !Usable(Next(cfg, w, entry).s, token, entry.now)
  {
    var m := StepKeepsInv(cfg, w, entry);
    var w' := Next(cfg, w, entry);
    var i :| 0 <= i < |w.handed| && w.handed[i].token == token;
    assert w'.handed[i].token == token;
    MoveKeepsUnusable(w.s, w'.s, m, w.now, entry.now, token);
  }

  /** A lease token that was handed out and is no longer usable, because its lease was
      replaced, expired, released, interrupted or deleted, is never usable again. */
  lemma {:induction false} UnusableForever(cfg: Config, w: World, run: seq<Entry>, token: Token)
    requires Sound(cfg) && Inv(w) && FairRun(cfg, w, run)
    requires WasHanded(w, token) && !Usable(w.s, token, w.now)
    ensures !Usable(Run(cfg, w, run).s, token, Run(cfg, w, run).now)
    decreases run
  {
    if run != [] {
      var m := StepKeepsInv(cfg, w, run[0]);
      StepKeepsUnusable(cfg, w, run[0], token);
      UnusableForever(cfg, Next(cfg, w, run[0]), run[1..], token);
    }
  }

  /** Refused once, refused for good, over every run of every set of workers. */
  lemma RefusedTokenStaysRefused(cfg: Config, before: seq<Entry>, after: seq<Entry>, token: Token, last: Entry)
    requires Sound(cfg) && FairRun(cfg, FRESH_WORLD, before)
    requires var w := Run(cfg, FRESH_WORLD, before);
             WasHanded(w, token) && !Usable(w.s, token, w.now) && FairRun(cfg, w, after)
             && Run(cfg, w, after).now <= last.now
    ensures var w := Run(cfg, Run(cfg, FRESH_WORLD, before), after);
            FencedBy(last.op, token) ==>
              Apply(cfg, w.s, last.op, last.now) == w.s && Refused(w.s, last.op, last.now) == Some(RefusalOf(w.s, last.op))
  {
    RunKeepsInv(cfg, FRESH_WORLD, before);
    var w := Run(cfg, FRESH_WORLD, before);
    UnusableForever(cfg, w, after, token);
    RunKeepsInv(cfg, w, after);
    UnusableIsRefused(cfg, Run(cfg, w, after).s, token, last.now, last.op);
  }

  // ------------------------------------------------------------- reverse index

  /** Every present lease can be found by its token. Together with LeasesKeyed this makes
      `leases` and `leasesByToken` exact inverses. */
  ghost predicate IndexComplete(s: Store) {
    forall id :: id in s.leases ==> s.leases[id].token in s.byToken && s.byToken[s.leases[id].token] == id
  }

  lemma MoveKeepsIndex(s: Store, e: Store, m: LeaseMove, now: int)
    requires Moves(s, e, m, now) && LeasesKeyed(s) && IndexComplete(s)
    requires m.Grant? ==> forall id :: id in s.leases ==> s.leases[id].token != m.lease.token
    requires forall a, b :: a in s.leases && b in s.leases && s.leases[a].token == s.leases[b].token ==> a == b
    ensures IndexComplete(e) <==> !(m.LoseToken? && m.id in s.leases)
  {
    if m.LoseToken? {
      TokensOfOne(s, m.id);
      if m.id in s.leases {
        assert e.leases[m.id].token !in e.byToken;
      }
    } else if m.Grant? {
      TokensOfOne(s, m.lease.taskId);
    }
  }

  /** The index stays complete through every step except an acquisition or a claim that finds a
      lease to replace and whose clock fails, or whose expiry has no ISO form: then the old lease
      stays, and its token can no longer be found. */
  lemma IndexStaysComplete(cfg: Config, w: World, entry: Entry)
    requires Sound(cfg) && Inv(w) && Fair(w, entry) && IndexComplete(w.s)
    ensures var failed := FailsReplacing(cfg, w.s, entry.op, entry.now);
            IndexComplete(Next(cfg, w, entry).s) <==> !(failed.Some? && failed.value in w.s.leases)
  {
    var m := Classify(cfg, w.s, entry.op, entry.now);
    GrantIsFresh(w, entry, m);
    MoveKeepsIndex(w.s, Next(cfg, w, entry).s, m, entry.now);
  }

  /** An input that reaches the exception: one task, one lease, and a second acquisition whose
      expiry has no ISO form. The holder may still append, but can neither renew nor release. */
  lemma FailedReplacementStrandsHolder()
    ensures var s1 := AcquireLease(EMPTY, AcquireInput("t", "a", "o", 1000), "k", Some(0)).0;
            var s2 := AcquireLease(s1, AcquireInput("t", "b", "p", 2 * MAX_DATE_MS), "l", Some(1)).0;
            && Usable(s2, "k", 1) && IndexComplete(s1) && !IndexComplete(s2)
            && AppendEvents(s2, "t", [Event("e", 0, "")], "k", 1).1.Ok?
            && RenewLease(s2, "k", 1000, 1).1 == Err(LeaseLost)
            && ReleaseLease(s2, "k").1 == Err(LeaseLost)
  {
    var s1 := AcquireLease(EMPTY, AcquireInput("t", "a", "o", 1000), "k", Some(0)).0;
    var s2 := AcquireLease(s1, AcquireInput("t", "b", "p", 2 * MAX_DATE_MS), "l", Some(1)).0;
    assert s2.leases["t"].token == "k" && "k" !in s2.byToken;
  }

  /** The same through a claim: a task that is leased while queued, claimed while the clock fails
      in the lease step. The undo puts everything back but the token. */
  lemma FailedClaimStrandsHolder()
    ensures var s1 := CreateTask(EMPTY, LeasedWhileQueued(), 0).0;
            var s2 := AcquireLease(s1, AcquireInput("t", "a", "o", 1000), "k", Some(0)).0;
            var s3 := ClaimNext(s2, Query({}, None, "w", 1), Aging(30_000, 0, 0), 1000, Env(1, "b", "l", AtLeaseClock)).0;
            && Usable(s3, "k", 1) && IndexComplete(s2) && !IndexComplete(s3) && s3.(byToken := s2.byToken) == s2
            && AppendEvents(s3, "t", [Event("e", 0, "")], "k", 1).1.Ok?
            && RenewLease(s3, "k", 1000, 1).1 == Err(LeaseLost)
            && ReleaseLease(s3, "k").1 == Err(LeaseLost)
  {
    var s1 := CreateTask(EMPTY, LeasedWhileQueued(), 0).0;
    var s2 := AcquireLease(s1, AcquireInput("t", "a", "o", 1000), "k", Some(0)).0;
    assert s2.tasks.Keys == {"t"} && s2.leases.Keys == {"t"} && s2.order == ["t"] && s2.byToken == map["k" := "t"];
    LostInClaim(s2, Query({}, None, "w", 1), Aging(30_000, 0, 0), Env(1, "b", "l", AtLeaseClock));
  }

  function LeasedWhileQueued(): CreateInput {
    CreateInput("t", "k", "x", false, 0, None, "", None, [])
  }

  ghost predicate OnlyLeasedTask(s: Store) {
    && s.tasks.Keys == {"t"} && s.order == ["t"] && s.tasks["t"].status == Queued && s.tasks["t"].dependsOn == []
    && s.leases.Keys == {"t"} && s.leases["t"].token == "k" && s.byToken == map["k" := "t"]
  }

  lemma LostInClaim(s: Store, q: Query, aging: Aging, env: Env)
    requires OnlyLeasedTask(s) && Eligible(s, q, "t") && aging.intervalMs > 0
    requires env.fault == AtLeaseClock && env.attemptId !in s.attempts
    ensures var e := ClaimNext(s, q, aging, 1000, env).0;
            e == s.(byToken := e.byToken) && "k" !in e.byToken
  {
    var story := ClaimTakesFirstReady(s, q, aging, 1000, env);
    assert IsReady(s, "t");
    assert story.id == Some("t") && story.ended == {} && story.mid == s;
    LostInLeaseStep(s, q, env);
  }

  lemma LostInLeaseStep(s: Store, q: Query, env: Env)
    requires OnlyLeasedTask(s) && env.fault == AtLeaseClock && env.attemptId !in s.attempts
    ensures var e := ClaimTask(s, "t", q, 1000, env).0;
            e == s.(byToken := e.byToken) && "k" !in e.byToken
  {
    var m := FailedClaimMove(s, "t", q, 1000, env);
    TokensOfOne(s, "t");
    FailedClaimRestores(s, "t", q, 1000, env);
    ClaimTaskFrame(s, "t", q, 1000, env);
  }

  /** An interrupt frees its task exactly when the clock answers for every attempt it cancels;
      if not, the task is interrupted and its holder may go on writing. */
  lemma InterruptFreesIff(s: Store, id: TaskId, reason: string, fence: Option<Token>, now: int, stop: Option<Stop>)
    requires FenceOpen(s, id, fence, now) && id in s.tasks && s.tasks[id].status in {Queued, Running}
    ensures var e := InterruptTask(s, id, reason, fence, now, stop).0;
            && e.tasks[id].status == Interrupted
            && (id !in e.leases <==> id !in s.leases || !Stops(s.attempts, id, stop))
            && (id in e.leases ==> e.leases[id] == s.leases[id] && forall token :: Current(s, id, token, now) ==> Current(e, id, token, now))
  {
  }

  /** With a complete index a renewal is refused as lost only for an unusable token. */
  lemma RenewRefusedIffUnusable(s: Store, token: Token, ttlMs: int, now: int)
    requires LeasesKeyed(s) && IndexComplete(s)
    ensures RenewLease(s, token, ttlMs, now).1 == Err(LeaseLost) <==> !Usable(s, token, now)
  {
    if Usable(s, token, now) {
      var id :| id in s.leases && s.leases[id].token == token && now < s.leases[id].expiresAt;
      assert s.byToken[token] == id;
    }
  }
}
