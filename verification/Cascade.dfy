/**
 The aggregate of the stores: what a run keeps outside the task store is written under the run's
 lease, and deleting a scope deletes it with the tasks.
 */
module Cascade {
  import opened RunFence
  import opened Wrappers
  import TaskModel
  import TaskRuns
  import TaskHistory
  import TaskRows
  import Continuations
  import Receipts

  datatype Aggregate = Aggregate(w: TaskHistory.World, continuations: Continuations.Maps, receipts: seq<Receipts.Receipt>)

  const FRESH := Aggregate(TaskHistory.FRESH_WORLD, Continuations.NO_MAPS, [])

  function RunExists(tasks: TaskModel.Store): string -> bool {
    id => id in tasks.tasks
  }

  /** Both stores see the tasks as they are, and ask the task store whether a lease still holds. */
  function FenceOf(a: Aggregate, taskId: string, token: TaskModel.Token, now: int): Fence {
    Fence(TaskModel.Current(a.w.s, taskId, token, now), taskId)
  }

  function Surroundings(a: Aggregate, env: Continuations.Env): Continuations.Env {
    env.(taskExists := RunExists(a.w.s))
  }

  datatype Call =
    | OnTasks(op: TaskRuns.Op)
    | Bind(runId: string, scope: Option<Continuations.Scope>, taskId: string, token: TaskModel.Token)
    | Put(record: Option<Continuations.Record>, taskId: string, token: TaskModel.Token)
    | Scope(runId: string)
    | Get(runId: string)
    | DropChat(chatId: string)
    | Admit(admission: Receipts.Admission, taskId: string, token: TaskModel.Token)
    | Complete(id: string, result: Option<string>, taskId: string, token: TaskModel.Token)

  /** One call at an instant, with the chats and messages as they are then. */
  datatype Entry = Entry(call: Call, now: int, env: Continuations.Env)

  /** A delete that was not refused makes both other stores drop what names no task any more. */
  function TaskStep(cfg: TaskRuns.Config, a: Aggregate, op: TaskRuns.Op, now: int, env: Continuations.Env): Aggregate
    requires TaskRuns.Sound(cfg)
  {
    var w := TaskHistory.Next(cfg, a.w, TaskHistory.Entry(op, now));
    if op.Delete? && TaskModel.DeleteByScope(a.w.s, op.scope).1.Ok? then
      Aggregate(w, Continuations.PruneDeletedRuns(a.continuations, env.(taskExists := RunExists(w.s))),
                Receipts.Prune(a.receipts, RunExists(w.s)))
    else a.(w := w)
  }

  function ContinuationOp(a: Aggregate, call: Call, now: int): Option<Continuations.Op> {
    match call
    case Bind(runId, scope, taskId, token) => Some(Continuations.Binding(runId, scope, FenceOf(a, taskId, token, now)))
    case Put(record, taskId, token) => Some(Continuations.Putting(record, FenceOf(a, taskId, token, now)))
    case Scope(runId) => Some(Continuations.Scoping(runId))
    case Get(runId) => Some(Continuations.Getting(runId))
    case DropChat(chatId) => Some(Continuations.DroppingChat(chatId))
    case _ => None
  }

  function ReceiptOp(a: Aggregate, call: Call, now: int): Option<Receipts.Op> {
    match call
    case Admit(admission, taskId, token) => Some(Receipts.Admitting(admission, FenceOf(a, taskId, token, now)))
    case Complete(id, result, taskId, token) => Some(Receipts.Completing(id, result, FenceOf(a, taskId, token, now)))
    case _ => None
  }

  function Next(cfg: TaskRuns.Config, a: Aggregate, entry: Entry): Aggregate
    requires TaskRuns.Sound(cfg)
  {
    var onContinuations, onReceipts := ContinuationOp(a, entry.call, entry.now), ReceiptOp(a, entry.call, entry.now);
    if entry.call.OnTasks? then TaskStep(cfg, a, entry.call.op, entry.now, entry.env)
    else if onContinuations.Some? then
      a.(continuations := Continuations.Apply(a.continuations, Surroundings(a, entry.env), onContinuations.value))
    else if onReceipts.Some? then a.(receipts := Receipts.Apply(a.receipts, onReceipts.value))
    else a
  }

  function Run(cfg: TaskRuns.Config, a: Aggregate, run: seq<Entry>): Aggregate
    requires TaskRuns.Sound(cfg)
    decreases run
  {
    if run == [] then a else Run(cfg, Next(cfg, a, run[0]), run[1..])
  }

  /** The clock does not go back, lease tokens are fresh, and leases are taken for tasks that exist. */
  ghost predicate Fair(a: Aggregate, entry: Entry) {
    entry.call.OnTasks? ==>
      TaskHistory.Fair(a.w, TaskHistory.Entry(entry.call.op, entry.now)) && TaskRows.LeasesRealTask(a.w.s, entry.call.op)
  }

  ghost predicate FairRun(cfg: TaskRuns.Config, a: Aggregate, run: seq<Entry>)
    requires TaskRuns.Sound(cfg)
    decreases run
  {
    run == [] || (Fair(a, run[0]) && FairRun(cfg, Next(cfg, a, run[0]), run[1..]))
  }

  /** Nothing anywhere names a task that does not exist. */
  ghost predicate NoOrphans(a: Aggregate) {
    && TaskRows.NoOrphans(a.w.s) && TaskRuns.LeasesKeyed(a.w.s)
    && Continuations.Bound(a.continuations)
    && a.continuations.scopes.Keys <= a.w.s.tasks.Keys
    && forall r :: r in a.receipts ==> r.input.runId in a.w.s.tasks
  }

  // --------------------------------------------------------------- every step

  lemma PrunedScopes(m: Continuations.Maps, env: Continuations.Env)
    ensures forall id :: id in Continuations.PruneDeletedRuns(m, env).scopes <==> id in m.scopes && env.taskExists(id)
  {
  }

  lemma TasksStay(cfg: TaskRuns.Config, s: TaskModel.Store, op: TaskRuns.Op, now: int)
    requires TaskRuns.Sound(cfg) && TaskHistory.StoreInv(s)
    requires !(op.Delete? && TaskModel.DeleteByScope(s, op.scope).1.Ok?)
    ensures s.tasks.Keys <= TaskRuns.Apply(cfg, s, op, now).tasks.Keys
  {
    if !op.Create? && !op.Delete? && !op.Append? {
      TaskRuns.StepFrame(cfg, s, op, now);
    }
  }

  lemma PruneLeavesNoOrphans(m: Continuations.Maps, rs: seq<Receipts.Receipt>, tasks: TaskModel.Store, env: Continuations.Env)
    requires Continuations.Bound(m)
    ensures var e := Continuations.PruneDeletedRuns(m, env.(taskExists := RunExists(tasks)));
            Continuations.Bound(e) && e.scopes.Keys <= tasks.tasks.Keys
    ensures forall r :: r in Receipts.Prune(rs, RunExists(tasks)) ==> r.input.runId in tasks.tasks
  {
    var now := env.(taskExists := RunExists(tasks));
    PrunedScopes(m, now);
    Continuations.StepKeepsBound(m, now, Continuations.Pruning);
    Receipts.PruneIs(rs, RunExists(tasks));
  }

  lemma TaskStepKeeps(cfg: TaskRuns.Config, a: Aggregate, op: TaskRuns.Op, now: int, env: Continuations.Env)
    requires TaskRuns.Sound(cfg) && TaskHistory.Inv(a.w) && NoOrphans(a)
    requires TaskHistory.Fair(a.w, TaskHistory.Entry(op, now)) && TaskRows.LeasesRealTask(a.w.s, op)
    ensures var e := TaskStep(cfg, a, op, now, env);
            TaskHistory.Inv(e.w) && NoOrphans(e)
  {
    var m := TaskHistory.StepKeepsInv(cfg, a.w, TaskHistory.Entry(op, now));
    TaskRows.StepKeepsNoOrphans(cfg, a.w.s, op, now);
    var tasks := TaskRuns.Apply(cfg, a.w.s, op, now);
    if op.Delete? && TaskModel.DeleteByScope(a.w.s, op.scope).1.Ok? {
      PruneLeavesNoOrphans(a.continuations, a.receipts, tasks, env);
    } else {
      TasksStay(cfg, a.w.s, op, now);
    }
  }

  lemma ContinuationStepKeeps(m: Continuations.Maps, env: Continuations.Env, op: Continuations.Op)
    requires forall id :: id in m.scopes ==> env.taskExists(id)
    ensures forall id :: id in Continuations.Apply(m, env, op).scopes ==> env.taskExists(id)
  {
  }

  /** An admission is only accepted under a lease, and only existing tasks are leased. */
  lemma ReceiptStepKeeps(tasks: TaskModel.Store, rs: seq<Receipts.Receipt>, op: Receipts.Op)
    requires !op.Pruning? && forall r :: r in rs ==> r.input.runId in tasks.tasks
    requires op.fence.holds ==> op.fence.taskId in tasks.tasks
    ensures forall r :: r in Receipts.Apply(rs, op) ==> r.input.runId in tasks.tasks
  {
    var e := Receipts.Apply(rs, op);
    forall k | 0 <= k < |e| ensures e[k].input.runId in tasks.tasks {
      if k < |rs| {
        assert rs[k] in rs && e[k].input == rs[k].input;
      }
    }
  }

  lemma StepKeeps(cfg: TaskRuns.Config, a: Aggregate, entry: Entry)
    requires TaskRuns.Sound(cfg) && TaskHistory.Inv(a.w) && NoOrphans(a) && Fair(a, entry)
    ensures TaskHistory.Inv(Next(cfg, a, entry).w) && NoOrphans(Next(cfg, a, entry))
  {
    var onContinuations, onReceipts := ContinuationOp(a, entry.call, entry.now), ReceiptOp(a, entry.call, entry.now);
    if entry.call.OnTasks? {
      TaskStepKeeps(cfg, a, entry.call.op, entry.now, entry.env);
    } else if onContinuations.Some? {
      ContinuationStepKeeps(a.continuations, Surroundings(a, entry.env), onContinuations.value);
      Continuations.StepKeepsBound(a.continuations, Surroundings(a, entry.env), onContinuations.value);
    } else if onReceipts.Some? {
      ReceiptStepKeeps(a.w.s, a.receipts, onReceipts.value);
    }
  }

  /** Over every run of every store, by any workers: nothing anywhere names a task that does not exist. */
  lemma {:induction false} RunLeavesNoOrphans(cfg: TaskRuns.Config, a: Aggregate, run: seq<Entry>)
    requires TaskRuns.Sound(cfg) && TaskHistory.Inv(a.w) && NoOrphans(a) && FairRun(cfg, a, run)
    ensures TaskHistory.Inv(Run(cfg, a, run).w) && NoOrphans(Run(cfg, a, run))
    decreases run
  {
    if run != [] {
      StepKeeps(cfg, a, run[0]);
      RunLeavesNoOrphans(cfg, Next(cfg, a, run[0]), run[1..]);
    }
  }

  // ------------------------------------------------------------------- deletes

  /**
   After any run, a delete that is not refused leaves nothing anywhere that names a task of the
   scope: no attempt, lease, token or log, no continuation, no receipt. What belongs to the tasks
   that remain stays. A refused delete changes nothing in any store.
   */
  lemma DeleteLeavesNoTrace(cfg: TaskRuns.Config, before: seq<Entry>, scope: string, last: Entry)
    requires TaskRuns.Sound(cfg) && FairRun(cfg, FRESH, before) && last.call == OnTasks(TaskRuns.Delete(scope))
    requires Run(cfg, FRESH, before).w.now <= last.now
    ensures var a := Run(cfg, FRESH, before);
            var e := Next(cfg, a, last);
            if TaskModel.DeleteByScope(a.w.s, scope).1.Err? then e == a.(w := e.w) && e.w.s == a.w.s
            else
              && NoOrphans(e)
              && (forall id :: id in e.w.s.tasks <==> id in a.w.s.tasks && a.w.s.tasks[id].scope != scope)
              && (forall r :: r in e.receipts <==> r in a.receipts && r.input.runId in e.w.s.tasks)
              && (forall id :: id in e.continuations.records <==> id in a.continuations.records && id in e.w.s.tasks)
              && (forall id :: id in e.continuations.records ==> e.continuations.records[id] == a.continuations.records[id])
  {
    assert NoOrphans(FRESH) && TaskHistory.Inv(FRESH.w);
    RunLeavesNoOrphans(cfg, FRESH, before);
    DeleteDropsExactly(cfg, Run(cfg, FRESH, before), scope, last);
  }

  lemma DeleteDropsExactly(cfg: TaskRuns.Config, a: Aggregate, scope: string, last: Entry)
    requires TaskRuns.Sound(cfg) && TaskHistory.Inv(a.w) && NoOrphans(a) && a.w.now <= last.now
    requires last.call == OnTasks(TaskRuns.Delete(scope))
    ensures var e := Next(cfg, a, last);
            if TaskModel.DeleteByScope(a.w.s, scope).1.Err? then e == a.(w := e.w) && e.w.s == a.w.s
            else
              && NoOrphans(e)
              && (forall id :: id in e.w.s.tasks <==> id in a.w.s.tasks && a.w.s.tasks[id].scope != scope)
              && (forall r :: r in e.receipts <==> r in a.receipts && r.input.runId in e.w.s.tasks)
              && (forall id :: id in e.continuations.records <==> id in a.continuations.records && id in e.w.s.tasks)
              && (forall id :: id in e.continuations.records ==> e.continuations.records[id] == a.continuations.records[id])
  {
    TaskRows.DeleteIsAllOrNothing(a.w.s, scope);
    if TaskModel.DeleteByScope(a.w.s, scope).1.Ok? {
      StepKeeps(cfg, a, last);
      Receipts.PruneIs(a.receipts, RunExists(Next(cfg, a, last).w.s));
    }
  }
}
