/**
 The task store behind the gate: units of work whose code is interrupted at every await act on the
 store as if each of them were one step, in the order in which they started.

 A unit is a claim, a single write, or a transaction that awaits its operations one after the other.
 Between two awaits of the walk of a claim the model stops at least as often as the source.
 */
module GatedTasks {
  import opened Wrappers
  import opened TaskModel
  import opened TaskClaim
  import opened TaskRuns
  import TaskHistory
  import TxGate

  type CallId = TxGate.CallId
  type Entry = TaskHistory.Entry

  // ---------------------------------------------------------- from await to await

  /** Where an operation stands when its code awaits. */
  datatype Stage =
    | Begin
    | Walking(ids: seq<TaskId>, settled: nat)
    | Opened(id: TaskId, was: Capture)
    | Attempted(id: TaskId, was: Capture)
    | Failing(id: TaskId, was: Capture)
    | Done

  /** One candidate of the walk. */
  function Candidate(s: Store, ids: seq<TaskId>, settled: nat, env: Env): (Store, Stage)
    requires ids != []
  {
    var id := ids[0];
    if id !in s.tasks then (s, Done)
    else match VerdictOf(s, id)
      case Blocked => (s, Walking(ids[1..], settled))
      case Settle(to, _) =>
        if env.fault == AtSettle(settled) then (s, Done)
        else
          var (s', answer) := TransitionTask(s, id, {Queued}, to, SettlePatch(VerdictOf(s, id), env.now), None, env.now);
          (s', if answer.Ok? || answer.error == InvalidTransition then Walking(ids[1..], settled + 1) else Done)
      case Ready =>
        if env.fault == AtStart then (s, Failing(id, CaptureOf(s, id)))
        else
          var (s', started) := Started(s, id, env);
          (s', match started
               case Ok(_) => Opened(id, CaptureOf(s, id))
               case Err(e) => if e == InvalidTransition then Walking(ids[1..], settled) else Failing(id, CaptureOf(s, id)))
  }

  /** A claim runs on to its next await. */
  function ClaimPiece(cfg: Config, s: Store, stage: Stage, q: Query, env: Env): (Store, Stage)
    requires Sound(cfg)
  {
    match stage
    case Begin => (s, Walking(Schedule(s, q, cfg.aging), 0))
    case Walking(ids, settled) => if ids == [] then (s, Done) else Candidate(s, ids, settled, env)
    case Opened(id, was) =>
      if env.fault == AtAttemptId then (s, Failing(id, was))
      else
        var (s', made) := CreateAttempt(s, env.attemptId, id, q.owner, Reading(env, AtAttemptClock));
        (s', if made.Ok? then Attempted(id, was) else Failing(id, was))
    case Attempted(id, was) =>
      var (s', lease) := AcquireLease(s, AcquireInput(id, env.attemptId, q.owner, cfg.leaseTtlMs), env.token,
                                      Reading(env, AtLeaseClock));
      (s', if lease.Ok? then Done else Failing(id, was))
    case Failing(id, was) => (Undo(was, s, id), Done)
    case Done => (s, Done)
  }

  function Piece(cfg: Config, s: Store, stage: Stage, e: Entry): (Store, Stage)
    requires Sound(cfg)
  {
    match e.op
    case Claim(q, env) => ClaimPiece(cfg, s, stage, q, env.(now := e.now))
    case _ => (if stage == Begin then Apply(cfg, s, e.op, e.now) else s, Done)
  }

  // ---------------------------------------------------------- what is still to come

  function FromAttempt(cfg: Config, s: Store, id: TaskId, was: Capture, q: Query, env: Env): Store {
    var (s', lease) := AcquireLease(s, AcquireInput(id, env.attemptId, q.owner, cfg.leaseTtlMs), env.token,
                                    Reading(env, AtLeaseClock));
    if lease.Ok? then s' else Undo(was, s', id)
  }

  function FromStart(cfg: Config, s: Store, id: TaskId, was: Capture, q: Query, env: Env): Store {
    if env.fault == AtAttemptId then Undo(was, s, id)
    else
      var (s', made) := CreateAttempt(s, env.attemptId, id, q.owner, Reading(env, AtAttemptClock));
      if made.Ok? then FromAttempt(cfg, s', id, was, q, env) else Undo(was, s', id)
  }

  function FromWalk(cfg: Config, walked: Walked, q: Query, env: Env): Store {
    match walked
    case Exhausted(end) => end
    case Stopped(end, _) => end
    case Hit(end, id) => ClaimTask(end, id, q, cfg.leaseTtlMs, env).0
  }

  function ClaimRest(cfg: Config, s: Store, stage: Stage, q: Query, env: Env): Store
    requires Sound(cfg)
  {
    match stage
    case Begin => ClaimNext(s, q, cfg.aging, cfg.leaseTtlMs, env).0
    case Walking(ids, settled) => FromWalk(cfg, Walk(s, ids, env, settled), q, env)
    case Opened(id, was) => FromStart(cfg, s, id, was, q, env)
    case Attempted(id, was) => FromAttempt(cfg, s, id, was, q, env)
    case Failing(id, was) => Undo(was, s, id)
    case Done => s
  }

  /** The store once the operation has come to its end, if nobody else touches it meanwhile. */
  function Rest(cfg: Config, s: Store, stage: Stage, e: Entry): Store
    requires Sound(cfg)
  {
    match e.op
    case Claim(q, env) => ClaimRest(cfg, s, stage, q, env.(now := e.now))
    case _ => if stage == Begin then Apply(cfg, s, e.op, e.now) else s
  }

  /** A candidate that is ready is started, or skipped, or the claim gives up. */
  lemma ReadyKeepsRest(cfg: Config, s: Store, ids: seq<TaskId>, settled: nat, q: Query, env: Env)
    requires Sound(cfg) && ids != [] && ids[0] in s.tasks && VerdictOf(s, ids[0]) == Ready
    ensures var (s', stage) := Candidate(s, ids, settled, env);
            ClaimRest(cfg, s', stage, q, env) == FromWalk(cfg, Walk(s, ids, env, settled), q, env)
  {
    var answer := Started(s, ids[0], env).1;
    if env.fault != AtStart && answer == Err(InvalidTransition) {
      assert Started(s, ids[0], env).0 == s;
    } else {
      assert Walk(s, ids, env, settled) == Hit(s, ids[0]);
    }
  }

  lemma SettleKeepsRest(cfg: Config, s: Store, ids: seq<TaskId>, settled: nat, q: Query, env: Env)
    requires Sound(cfg) && ids != [] && ids[0] in s.tasks && VerdictOf(s, ids[0]).Settle?
    ensures var (s', stage) := Candidate(s, ids, settled, env);
            ClaimRest(cfg, s', stage, q, env) == FromWalk(cfg, Walk(s, ids, env, settled), q, env)
  {
  }

  lemma CandidateKeepsRest(cfg: Config, s: Store, ids: seq<TaskId>, settled: nat, q: Query, env: Env)
    requires Sound(cfg) && ids != []
    ensures var (s', stage) := Candidate(s, ids, settled, env);
            ClaimRest(cfg, s', stage, q, env) == FromWalk(cfg, Walk(s, ids, env, settled), q, env)
  {
    if ids[0] in s.tasks {
      match VerdictOf(s, ids[0]) {
        case Blocked =>
        case Settle(_, _) => SettleKeepsRest(cfg, s, ids, settled, q, env);
        case Ready => ReadyKeepsRest(cfg, s, ids, settled, q, env);
      }
    }
  }

  /** Running on to the next await leaves what the operation comes to. */
  lemma PieceKeepsRest(cfg: Config, s: Store, stage: Stage, e: Entry)
    requires Sound(cfg)
    ensures var (s', next) := Piece(cfg, s, stage, e);
            Rest(cfg, s', next, e) == Rest(cfg, s, stage, e)
  {
    if e.op.Claim? && stage.Walking? && stage.ids != [] {
      CandidateKeepsRest(cfg, s, stage.ids, stage.settled, e.op.q, e.op.env.(now := e.now));
    }
  }

  // ------------------------------------------------------------------- units of work

  /** In the k-th operation of the unit. */
  datatype Place = Place(k: nat, stage: Stage)

  /** What the unit of each call does: one operation, or several of them, each awaited. */
  type Jobs = CallId -> seq<Entry>

  function RunOps(cfg: Config, s: Store, ops: seq<Entry>): Store
    requires Sound(cfg)
    decreases ops
  {
    if ops == [] then s else RunOps(cfg, Apply(cfg, s, ops[0].op, ops[0].now), ops[1..])
  }

  function UnitPiece(cfg: Config, s: Store, place: Place, ops: seq<Entry>): (Store, Place)
    requires Sound(cfg)
  {
    if place.k >= |ops| then (s, place)
    else
      var (s', stage) := Piece(cfg, s, place.stage, ops[place.k]);
      (s', if stage == Done then Place(place.k + 1, Begin) else Place(place.k, stage))
  }

  function UnitRest(cfg: Config, s: Store, place: Place, ops: seq<Entry>): Store
    requires Sound(cfg)
  {
    if place.k >= |ops| then s else RunOps(cfg, Rest(cfg, s, place.stage, ops[place.k]), ops[place.k + 1..])
  }

  lemma UnitPieceKeepsRest(cfg: Config, s: Store, place: Place, ops: seq<Entry>)
    requires Sound(cfg)
    ensures var (s', next) := UnitPiece(cfg, s, place, ops);
            UnitRest(cfg, s', next, ops) == UnitRest(cfg, s, place, ops)
  {
    if place.k < |ops| {
      PieceKeepsRest(cfg, s, place.stage, ops[place.k]);
      UnitBegins(cfg, UnitPiece(cfg, s, place, ops).0, ops, place.k + 1);
    }
  }

  lemma UnitBegins(cfg: Config, s: Store, ops: seq<Entry>, k: nat)
    requires Sound(cfg) && k <= |ops|
    ensures UnitRest(cfg, s, Place(k, Begin), ops) == RunOps(cfg, s, ops[k..])
  {
    if k < |ops| {
      assert ops[k..][1..] == ops[k + 1..];
    }
  }

  lemma {:induction false} RunOpsConcat(cfg: Config, s: Store, a: seq<Entry>, b: seq<Entry>)
    requires Sound(cfg)
    ensures RunOps(cfg, s, a + b) == RunOps(cfg, RunOps(cfg, s, a), b)
    decreases a
  {
    if a == [] {
      assert a + b == b;
    } else {
      assert (a + b)[1..] == a[1..] + b;
      RunOpsConcat(cfg, Apply(cfg, s, a[0].op, a[0].now), a[1..], b);
    }
  }

  // ------------------------------------------------------------- the store and its gate

  datatype Desk = Desk(gate: TxGate.Gate, s: Store, places: map<CallId, Place>)

  const EMPTY_DESK := Desk(TxGate.IDLE, EMPTY, map[])

  /** A step of the gate, or the code of a unit running on to its next await. */
  datatype Act = Gate(step: TxGate.Step) | Work(id: CallId)

  function PlaceOf(d: Desk, id: CallId): Place {
    if id in d.places then d.places[id] else Place(0, Begin)
  }

  function After(cfg: Config, jobs: Jobs, d: Desk, act: Act): Desk
    requires Sound(cfg)
  {
    match act
    case Gate(step) => d.(gate := TxGate.Next(d.gate, step))
    case Work(id) =>
      var (s', place) := UnitPiece(cfg, d.s, PlaceOf(d, id), jobs(id));
      d.(s := s', places := d.places[id := place])
  }

  predicate Runs(d: Desk, id: CallId) {
    id < |d.gate.calls| && d.gate.calls[id].phase.Running?
  }

  /** Code of a unit runs only once its turn has come, and the unit ends when all of it has run. */
  predicate Proper(jobs: Jobs, d: Desk, act: Act) {
    match act
    case Work(id) => Runs(d, id)
    case Gate(step) => step.Leave? && Runs(d, step.id) ==> PlaceOf(d, step.id).k >= |jobs(step.id)|
  }

  function RunActs(cfg: Config, jobs: Jobs, d: Desk, acts: seq<Act>): Desk
    requires Sound(cfg)
    decreases acts
  {
    if acts == [] then d else RunActs(cfg, jobs, After(cfg, jobs, d, acts[0]), acts[1..])
  }

  predicate ProperRun(cfg: Config, jobs: Jobs, d: Desk, acts: seq<Act>)
    requires Sound(cfg)
    decreases acts
  {
    acts == [] || (Proper(jobs, d, acts[0]) && ProperRun(cfg, jobs, After(cfg, jobs, d, acts[0]), acts[1..]))
  }

  /** What the units did, one after the other. */
  function InOrder(jobs: Jobs, started: seq<CallId>): seq<Entry> {
    if started == [] then [] else InOrder(jobs, started[..|started| - 1]) + jobs(started[|started| - 1])
  }

  function SerialStore(cfg: Config, jobs: Jobs, started: seq<CallId>): Store
    requires Sound(cfg)
  {
    RunOps(cfg, EMPTY, InOrder(jobs, started))
  }

  /** With nothing open, the store is what the units come to one after the other; with a unit open, it
      will be, once that unit has come to its end. */
  ghost predicate DeskInv(cfg: Config, jobs: Jobs, d: Desk)
    requires Sound(cfg)
  {
    && TxGate.Inv(d.gate)
    && (forall id :: id in d.places ==> TxGate.HasStarted(d.gate, id))
    && match d.gate.currentOwner
       case None => d.s == SerialStore(cfg, jobs, d.gate.started)
       case Some(owner) =>
         var id := d.gate.mintedFor[owner];
         UnitRest(cfg, d.s, PlaceOf(d, id), jobs(id)) == SerialStore(cfg, jobs, d.gate.started)
  }

  lemma WorkKeeps(cfg: Config, jobs: Jobs, d: Desk, id: CallId)
    requires Sound(cfg) && DeskInv(cfg, jobs, d) && Runs(d, id)
    ensures DeskInv(cfg, jobs, After(cfg, jobs, d, Work(id)))
  {
    var owner := d.gate.calls[id].phase.owner;
    assert d.gate.currentOwner == Some(owner) && d.gate.mintedFor[owner] == id;
    assert !d.gate.calls[id].expired;
    UnitPieceKeepsRest(cfg, d.s, PlaceOf(d, id), jobs(id));
  }

  lemma TurnKeeps(cfg: Config, jobs: Jobs, d: Desk, id: CallId)
    requires Sound(cfg) && DeskInv(cfg, jobs, d) && TxGate.Due(d.gate, id) && !d.gate.calls[id].expired
    ensures DeskInv(cfg, jobs, After(cfg, jobs, d, Gate(TxGate.TurnComes(id))))
  {
    var g, g' := d.gate, TxGate.TurnStep(d.gate, id);
    TxGate.DueIsNext(g, id);
    TxGate.StepKeeps(g, TxGate.TurnComes(id));
    assert id !in d.places by {
      assert !TxGate.HasStarted(g, id);
    }
    forall x | x in d.places ensures TxGate.HasStarted(g', x) {
      assert TxGate.HasStarted(g, x);
    }
    assert g'.started[..|g'.started| - 1] == g.started;
    RunOpsConcat(cfg, EMPTY, InOrder(jobs, g.started), jobs(id));
    UnitBegins(cfg, d.s, jobs(id), 0);
    assert jobs(id)[0..] == jobs(id);
  }

  lemma LeaveKeeps(cfg: Config, jobs: Jobs, d: Desk, id: CallId, ok: bool)
    requires Sound(cfg) && DeskInv(cfg, jobs, d) && Runs(d, id) && PlaceOf(d, id).k >= |jobs(id)|
    ensures DeskInv(cfg, jobs, After(cfg, jobs, d, Gate(TxGate.Leave(id, ok))))
  {
    TxGate.StepKeeps(d.gate, TxGate.Leave(id, ok));
    var g' := TxGate.LeaveStep(d.gate, id, ok);
    forall x | x in d.places ensures TxGate.HasStarted(g', x) {
      assert TxGate.HasStarted(d.gate, x);
    }
  }

  /** Every other step of the gate neither opens nor ends a unit. */
  predicate NeitherOpensNorEnds(g: TxGate.Gate, step: TxGate.Step) {
    && (step.TurnComes? ==> !TxGate.Due(g, step.id) || g.calls[step.id].expired)
    && (step.Leave? ==> step.id >= |g.calls| || !g.calls[step.id].phase.Running?)
  }

  lemma OtherStep(g: TxGate.Gate, step: TxGate.Step)
    requires NeitherOpensNorEnds(g, step)
    ensures var g' := TxGate.Next(g, step);
            g'.currentOwner == g.currentOwner && g'.started == g.started && g'.mintedFor == g.mintedFor
  {
  }

  lemma StillStarted(g: TxGate.Gate, step: TxGate.Step, id: CallId)
    requires NeitherOpensNorEnds(g, step) && TxGate.HasStarted(g, id)
    ensures TxGate.HasStarted(TxGate.Next(g, step), id)
  {
  }

  lemma OthersKeep(cfg: Config, jobs: Jobs, d: Desk, step: TxGate.Step)
    requires Sound(cfg) && DeskInv(cfg, jobs, d) && NeitherOpensNorEnds(d.gate, step)
    ensures DeskInv(cfg, jobs, After(cfg, jobs, d, Gate(step)))
  {
    var g' := TxGate.Next(d.gate, step);
    TxGate.StepKeeps(d.gate, step);
    OtherStep(d.gate, step);
    forall x | x in d.places ensures TxGate.HasStarted(g', x) {
      StillStarted(d.gate, step, x);
    }
    SameDesk(cfg, jobs, d, g');
  }

  lemma SameDesk(cfg: Config, jobs: Jobs, d: Desk, g': TxGate.Gate)
    requires Sound(cfg) && DeskInv(cfg, jobs, d) && TxGate.Inv(g')
    requires forall id :: id in d.places ==> TxGate.HasStarted(g', id)
    requires g'.currentOwner == d.gate.currentOwner && g'.started == d.gate.started && g'.mintedFor == d.gate.mintedFor
    ensures DeskInv(cfg, jobs, d.(gate := g'))
  {
  }

  lemma ActKeeps(cfg: Config, jobs: Jobs, d: Desk, act: Act)
    requires Sound(cfg) && DeskInv(cfg, jobs, d) && Proper(jobs, d, act)
    ensures DeskInv(cfg, jobs, After(cfg, jobs, d, act))
  {
    match act {
      case Work(id) => WorkKeeps(cfg, jobs, d, id);
      case Gate(step) =>
        if step.TurnComes? && TxGate.Due(d.gate, step.id) && !d.gate.calls[step.id].expired {
          TurnKeeps(cfg, jobs, d, step.id);
        } else if step.Leave? && Runs(d, step.id) {
          LeaveKeeps(cfg, jobs, d, step.id, step.ok);
        } else {
          OthersKeep(cfg, jobs, d, step);
        }
    }
  }

  lemma {:induction false} ActsKeep(cfg: Config, jobs: Jobs, d: Desk, acts: seq<Act>)
    requires Sound(cfg) && DeskInv(cfg, jobs, d) && ProperRun(cfg, jobs, d, acts)
    ensures DeskInv(cfg, jobs, RunActs(cfg, jobs, d, acts))
    decreases acts
  {
    if acts != [] {
      ActKeeps(cfg, jobs, d, acts[0]);
      ActsKeep(cfg, jobs, After(cfg, jobs, d, acts[0]), acts[1..]);
    }
  }

  lemma {:induction false} OpsAreARun(cfg: Config, w: TaskHistory.World, ops: seq<Entry>)
    requires Sound(cfg)
    ensures TaskHistory.Run(cfg, w, ops).s == RunOps(cfg, w.s, ops)
    decreases ops
  {
    if ops != [] {
      OpsAreARun(cfg, TaskHistory.Next(cfg, w, ops[0]), ops[1..]);
    }
  }

  // ------------------------------------------------------------------------ theorems

  /**
   However the awaits of units, callers and timers interleave: whenever nothing is open, the store is
   the one that the run of their operations leaves, whole and in the order in which the units started,
   which is the order of the calls. So whatever holds after every run of operations holds behind the gate.
   */
  lemma UnitsActOneAfterTheOther(cfg: Config, jobs: Jobs, acts: seq<Act>)
    requires Sound(cfg) && ProperRun(cfg, jobs, EMPTY_DESK, acts)
    ensures var d := RunActs(cfg, jobs, EMPTY_DESK, acts);
            && (d.gate.currentOwner.None? ==>
                  d.s == TaskHistory.Run(cfg, TaskHistory.FRESH_WORLD, InOrder(jobs, d.gate.started)).s)
            && forall i, j :: 0 <= i < j < |d.gate.started| ==> d.gate.started[i] < d.gate.started[j]
  {
    ActsKeep(cfg, jobs, EMPTY_DESK, acts);
    OpsAreARun(cfg, TaskHistory.FRESH_WORLD, InOrder(jobs, RunActs(cfg, jobs, EMPTY_DESK, acts).gate.started));
  }

  /** For one: no two tasks are leased under the same fencing token, which a claim interrupted by another
      acquisition could bring about. */
  lemma LeasesApartBehindTheGate(cfg: Config, jobs: Jobs, acts: seq<Act>, a: TaskId, b: TaskId)
    requires Sound(cfg) && ProperRun(cfg, jobs, EMPTY_DESK, acts)
    requires var d := RunActs(cfg, jobs, EMPTY_DESK, acts);
             && d.gate.currentOwner.None? && a in d.s.leases && b in d.s.leases
             && TaskHistory.FairRun(cfg, TaskHistory.FRESH_WORLD, InOrder(jobs, d.gate.started))
    ensures var d := RunActs(cfg, jobs, EMPTY_DESK, acts);
            d.s.leases[a].fencing == d.s.leases[b].fencing ==> a == b
  {
    var d := RunActs(cfg, jobs, EMPTY_DESK, acts);
    var run := InOrder(jobs, d.gate.started);
    UnitsActOneAfterTheOther(cfg, jobs, acts);
    TaskHistory.RunKeepsInv(cfg, TaskHistory.FRESH_WORLD, run);
    LeasesApart(TaskHistory.Run(cfg, TaskHistory.FRESH_WORLD, run), a, b);
  }

  lemma LeasesApart(w: TaskHistory.World, a: TaskId, b: TaskId)
    requires TaskHistory.LeaseHistory(w) && LeasesKeyed(w.s) && a in w.s.leases && b in w.s.leases
    ensures w.s.leases[a].fencing == w.s.leases[b].fencing ==> a == b
  {
    var i :| 0 <= i < |w.handed| && TaskHistory.SameLease(w.handed[i], w.s.leases[a]);
    var j :| 0 <= j < |w.handed| && TaskHistory.SameLease(w.handed[j], w.s.leases[b]);
    assert w.handed[i].taskId == a && w.handed[j].taskId == b;
  }
}
