/**
 Private provider state kept between the passes of a run: bound to one scope, and once stored,
 never read back as absence while the run exists.

 What the store asks of the aggregate around it is one snapshot per call.
 */
module Continuations {
  import opened RunFence
  import opened Wrappers

  datatype Scope = Scope(providerId: string, protocol: string, connectionId: string, generation: int,
                         chatId: string, branchId: string, model: string)

  datatype Record = Record(runId: string, anchorMessageId: string, scope: Scope, state: string)

  /** The tasks, chats and messages as they are during one call. */
  datatype Env = Env(taskExists: string -> bool, taskChat: string -> Option<string>, chatExists: string -> bool,
                     anchorChat: string -> Option<string>, anchorRun: string -> Option<string>)

  datatype Error = Invalid | LeaseLost | ScopeMismatch | StateMissing

  datatype Maps = Maps(scopes: map<string, Scope>, records: map<string, Record>, required: set<string>)

  const NO_MAPS := Maps(map[], map[], {})

  // ------------------------------------------------------------------------ calls

  function FenceError(env: Env, runId: string, chatId: string, fence: Fence): Option<Error> {
    if fence.taskId != runId || !fence.holds then Some(LeaseLost)
    else
      var taskChat := env.taskChat(runId);
      if !env.taskExists(runId) || !env.chatExists(chatId) || (taskChat.Some? && taskChat.value != chatId)
      then Some(ScopeMismatch) else None
  }

  function Forget(m: Maps, runId: string): Maps {
    Maps(m.scopes - {runId}, m.records - {runId}, m.required - {runId})
  }

  /** `scope` is None for a value that is not a scope. */
  function BindRun(m: Maps, env: Env, runId: string, scope: Option<Scope>, fence: Fence): Result<Maps, Error> {
    if scope.None? then Err(Invalid)
    else
      match FenceError(env, runId, scope.value.chatId, fence)
      case Some(e) => Err(e)
      case None =>
        if runId !in m.scopes then Ok(m.(scopes := m.scopes[runId := scope.value]))
        else if m.scopes[runId] != scope.value then Err(ScopeMismatch)
        else Ok(m)
  }

  /** The bound scope; a run that is gone is forgotten on the way. */
  function SelectScope(m: Maps, env: Env, runId: string): (Maps, Option<Scope>) {
    if !env.taskExists(runId) then (Forget(m, runId), None)
    else (m, if runId in m.scopes then Some(m.scopes[runId]) else None)
  }

  /** `input` is None for a value that is not a continuation. */
  function Put(m: Maps, env: Env, input: Option<Record>, fence: Fence): (Maps, Result<Record, Error>) {
    if input.None? then (m, Err(Invalid))
    else
      var r := input.value;
      match FenceError(env, r.runId, r.scope.chatId, fence)
      case Some(e) => (m, Err(e))
      case None =>
        var (next, bound) := SelectScope(m, env, r.runId);
        if bound != Some(r.scope) || env.anchorChat(r.anchorMessageId) != Some(r.scope.chatId)
           || env.anchorRun(r.anchorMessageId) != Some(r.runId)
        then (next, Err(ScopeMismatch))
        else (next.(records := next.records[r.runId := r], required := next.required + {r.runId}), Ok(r))
  }

  function MissingOrNull(m: Maps, bound: Option<Scope>, runId: string): Result<Option<Record>, Error> {
    if bound.Some? && runId in m.required then Err(StateMissing) else Ok(None)
  }

  function SelectRecord(m: Maps, env: Env, runId: string): (Maps, Result<Option<Record>, Error>) {
    var (next, bound) := SelectScope(m, env, runId);
    if runId !in next.records then (next, MissingOrNull(next, bound, runId))
    else
      var r := next.records[runId];
      if bound.None? || !env.chatExists(r.scope.chatId) || env.anchorChat(r.anchorMessageId).None? then
        (next.(records := next.records - {runId}), MissingOrNull(next, bound, runId))
      else if bound != Some(r.scope) || env.anchorChat(r.anchorMessageId) != Some(r.scope.chatId)
              || env.anchorRun(r.anchorMessageId) != Some(runId)
      then (next, Err(ScopeMismatch))
      else (next, Ok(Some(r)))
  }

  function DeleteByChat(m: Maps, chatId: string): Maps {
    m.(records := map id | id in m.records && m.records[id].scope.chatId != chatId :: m.records[id])
  }

  function PruneDeletedRuns(m: Maps, env: Env): Maps {
    var gone := set id | id in m.scopes && !env.taskExists(id);
    Maps(m.scopes - gone, m.records - gone, m.required - gone)
  }

  class MemoryProviderContinuationStore {
    var scopes: map<string, Scope>
    var records: map<string, Record>
    var required: set<string>

    function View(): Maps
      reads this
    {
      Maps(scopes, records, required)
    }

    constructor ()
      ensures View() == NO_MAPS
    {
      scopes, records, required := map[], map[], {};
    }

    method Bind(env: Env, runId: string, scope: Option<Scope>, fence: Fence) returns (outcome: Result<(), Error>)
      modifies this
      ensures match BindRun(old(View()), env, runId, scope, fence)
              case Err(e) => outcome == Err(e) && View() == old(View())
              case Ok(m) => outcome == Ok(()) && View() == m
    {
      if scope.None? { return Err(Invalid); }
      var error := FenceError(env, runId, scope.value.chatId, fence);
      if error.Some? { return Err(error.value); }
      if runId in scopes {
        if scopes[runId] != scope.value { return Err(ScopeMismatch); }
      } else {
        scopes := scopes[runId := scope.value];
      }
      return Ok(());
    }

    method GetRunScope(env: Env, runId: string) returns (scope: Option<Scope>)
      modifies this
      ensures (View(), scope) == SelectScope(old(View()), env, runId)
    {
      if !env.taskExists(runId) {
        scopes := scopes - {runId};
        records := records - {runId};
        required := required - {runId};
        return None;
      }
      return if runId in scopes then Some(scopes[runId]) else None;
    }

    method Store(env: Env, input: Option<Record>, fence: Fence) returns (outcome: Result<Record, Error>)
      modifies this
      ensures (View(), outcome) == Put(old(View()), env, input, fence)
    {
      if input.None? { return Err(Invalid); }
      var r := input.value;
      var error := FenceError(env, r.runId, r.scope.chatId, fence);
      if error.Some? { return Err(error.value); }
      var bound := GetRunScope(env, r.runId);
      if bound.None? || bound.value != r.scope || env.anchorChat(r.anchorMessageId) != Some(r.scope.chatId)
         || env.anchorRun(r.anchorMessageId) != Some(r.runId) {
        return Err(ScopeMismatch);
      }
      records := records[r.runId := r];
      required := required + {r.runId};
      return Ok(r);
    }

    method GetByRun(env: Env, runId: string) returns (outcome: Result<Option<Record>, Error>)
      modifies this
      ensures (View(), outcome) == SelectRecord(old(View()), env, runId)
    {
      var bound := GetRunScope(env, runId);
      if runId !in records {
        if bound.Some? && runId in required { return Err(StateMissing); }
        return Ok(None);
      }
      var r := records[runId];
      if bound.None? || !env.chatExists(r.scope.chatId) || env.anchorChat(r.anchorMessageId).None? {
        records := records - {runId};
        if bound.Some? && runId in required { return Err(StateMissing); }
        return Ok(None);
      }
      if bound.value != r.scope || env.anchorChat(r.anchorMessageId) != Some(r.scope.chatId)
         || env.anchorRun(r.anchorMessageId) != Some(runId) {
        return Err(ScopeMismatch);
      }
      return Ok(Some(r));
    }

    /** The chat's records go; that they were required stays. */
    method DropChat(chatId: string)
      modifies this
      ensures View() == DeleteByChat(old(View()), chatId)
    {
      var left := records.Keys;
      while left != {}
        invariant left <= old(records).Keys && scopes == old(scopes) && required == old(required)
        invariant forall id :: id in records <==>
                    id in old(records) && (id in left || old(records)[id].scope.chatId != chatId)
        invariant forall id :: id in records ==> records[id] == old(records)[id]
        decreases left
      {
        var id :| id in left;
        left := left - {id};
        if records[id].scope.chatId == chatId { records := records - {id}; }
      }
    }

    method Prune(env: Env)
      modifies this
      ensures View() == PruneDeletedRuns(old(View()), env)
    {
      var left, gone := scopes.Keys, {};
      while left != {}
        invariant left <= old(scopes).Keys
        invariant gone == set id | id in old(scopes) && id !in left && !env.taskExists(id)
        invariant scopes == old(scopes) - gone
        invariant records == old(records) - gone
        invariant required == old(required) - gone
        decreases left
      {
        var id :| id in left;
        left := left - {id};
        if !env.taskExists(id) {
          gone := gone + {id};
          scopes := scopes - {id};
          records := records - {id};
          required := required - {id};
        }
      }
    }
  }

  // ------------------------------------------------------------------------- runs

  datatype Op = Binding(runId: string, scope: Option<Scope>, fence: Fence) | Scoping(runId: string)
              | Putting(input: Option<Record>, fence: Fence) | Getting(runId: string)
              | DroppingChat(chatId: string) | Pruning

  function Apply(m: Maps, env: Env, op: Op): Maps {
    match op
    case Binding(runId, scope, fence) => (match BindRun(m, env, runId, scope, fence) case Ok(next) => next case Err(_) => m)
    case Scoping(runId) => SelectScope(m, env, runId).0
    case Putting(input, fence) => Put(m, env, input, fence).0
    case Getting(runId) => SelectRecord(m, env, runId).0
    case DroppingChat(chatId) => DeleteByChat(m, chatId)
    case Pruning => PruneDeletedRuns(m, env)
  }

  /** A stored record is its run's, in the scope the run is bound to; only bound runs require one. */
  predicate Bound(m: Maps) {
    && (forall id :: id in m.records ==> id in m.scopes && m.records[id].scope == m.scopes[id] && m.records[id].runId == id)
    && m.required <= m.scopes.Keys
  }

  lemma StepKeepsBound(m: Maps, env: Env, op: Op)
    requires Bound(m)
    ensures Bound(Apply(m, env, op))
  {
  }

  ghost predicate Run(states: seq<Maps>, envs: seq<Env>, ops: seq<Op>) {
    && |states| == |ops| + 1 && |envs| == |ops| && states[0] == NO_MAPS
    && forall i :: 0 <= i < |ops| ==> states[i + 1] == Apply(states[i], envs[i], ops[i])
  }

  /** After any calls, every stored record is in the scope its run is bound to. */
  lemma {:induction false} RunKeepsBound(states: seq<Maps>, envs: seq<Env>, ops: seq<Op>, i: nat)
    requires Run(states, envs, ops) && i < |states|
    ensures Bound(states[i])
  {
    if i > 0 {
      var j := i - 1;
      RunKeepsBound(states, envs, ops, j);
      assert states[j + 1] == Apply(states[j], envs[j], ops[j]);
      StepKeepsBound(states[j], envs[j], ops[j]);
    }
  }

  /** The run's task is there during each of these calls. */
  predicate Stays(envs: seq<Env>, runId: string, i: nat, j: nat) {
    i <= j <= |envs| && forall k :: i <= k < j ==> envs[k].taskExists(runId)
  }

  lemma StepKeepsScope(m: Maps, env: Env, op: Op, runId: string)
    requires runId in m.scopes && env.taskExists(runId)
    ensures var next := Apply(m, env, op);
            runId in next.scopes && next.scopes[runId] == m.scopes[runId] && (runId in m.required ==> runId in next.required)
  {
  }

  /** The scope a run is bound to never changes while the run exists. */
  lemma {:induction false} ScopeIsFinal(states: seq<Maps>, envs: seq<Env>, ops: seq<Op>, runId: string, i: nat, j: nat)
    requires Run(states, envs, ops) && Stays(envs, runId, i, j) && runId in states[i].scopes
    ensures runId in states[j].scopes && states[j].scopes[runId] == states[i].scopes[runId]
    ensures runId in states[i].required ==> runId in states[j].required
    decreases j
  {
    if i < j {
      var k := j - 1;
      ScopeIsFinal(states, envs, ops, runId, i, k);
      assert states[k + 1] == Apply(states[k], envs[k], ops[k]);
      StepKeepsScope(states[k], envs[k], ops[k], runId);
    }
  }

  predicate PutsFor(m: Maps, env: Env, op: Op, runId: string) {
    op.Putting? && Put(m, env, op.input, op.fence).1.Ok? && op.input.value.runId == runId
  }

  lemma StepKeepsRecord(m: Maps, env: Env, op: Op, r: Record)
    requires !PutsFor(m, env, op, r.runId) && (r.runId in m.records ==> m.records[r.runId] == r)
    ensures var next := Apply(m, env, op);
            r.runId in next.records ==> next.records[r.runId] == r
  {
  }

  lemma {:induction false} OnlyLastPut(states: seq<Maps>, envs: seq<Env>, ops: seq<Op>, r: Record, i: nat, j: nat)
    requires Run(states, envs, ops) && i <= j < |states|
    requires r.runId in states[i].records ==> states[i].records[r.runId] == r
    requires forall k :: i <= k < j ==> !PutsFor(states[k], envs[k], ops[k], r.runId)
    ensures r.runId in states[j].records ==> states[j].records[r.runId] == r
    decreases j
  {
    if i < j {
      var k := j - 1;
      OnlyLastPut(states, envs, ops, r, i, k);
      assert states[k + 1] == Apply(states[k], envs[k], ops[k]);
      StepKeepsRecord(states[k], envs[k], ops[k], r);
    }
  }

  /** Nothing moved the message a record hangs from to another chat or run. */
  predicate AnchorHolds(env: Env, r: Record) {
    var chat := env.anchorChat(r.anchorMessageId);
    chat.None? || (chat == Some(r.scope.chatId) && env.anchorRun(r.anchorMessageId) == Some(r.runId))
  }

  /**
   Once a continuation is stored, reading it answers with the one stored last, or says that it is
   missing. It is never answered with nothing while the run exists, whatever was called between;
   and never with a mismatch unless its message was moved.
   */
  lemma NeverReadsAsAbsent(states: seq<Maps>, envs: seq<Env>, ops: seq<Op>, i: nat, j: nat,
                           r: Record, fence: Fence, env: Env)
    requires Run(states, envs, ops) && i < |ops| && ops[i] == Putting(Some(r), fence)
    requires PutsFor(states[i], envs[i], ops[i], r.runId)
    requires i < j && Stays(envs, r.runId, i + 1, j) && env.taskExists(r.runId)
    requires forall k :: i < k < j ==> !PutsFor(states[k], envs[k], ops[k], r.runId)
    ensures SelectRecord(states[j], env, r.runId).1 in {Ok(Some(r)), Err(StateMissing), Err(ScopeMismatch)}
    ensures AnchorHolds(env, r) ==> SelectRecord(states[j], env, r.runId).1 != Err(ScopeMismatch)
  {
    assert states[i + 1] == Apply(states[i], envs[i], ops[i]);
    RunKeepsBound(states, envs, ops, i + 1);
    assert r.runId in states[i + 1].required;
    ScopeIsFinal(states, envs, ops, r.runId, i + 1, j);
    OnlyLastPut(states, envs, ops, r, i + 1, j);
    RunKeepsBound(states, envs, ops, j);
  }

  /** Pruning leaves nothing that names a run that is gone, and everything else as it was. */
  lemma PruneLeavesNoOrphan(m: Maps, env: Env, runId: string)
    requires Bound(m)
    ensures var next := PruneDeletedRuns(m, env);
            if env.taskExists(runId) then
              && (runId in next.scopes <==> runId in m.scopes) && (runId in next.records <==> runId in m.records)
              && (runId in next.required <==> runId in m.required)
            else runId !in next.scopes && runId !in next.records && runId !in next.required
  {
  }

  predicate NeverBinds(ops: seq<Op>, runId: string, i: nat, j: nat) {
    i <= j <= |ops| && forall k :: i <= k < j ==> !(ops[k].Binding? && ops[k].runId == runId)
  }

  predicate Unbound(m: Maps, runId: string) {
    runId !in m.scopes && runId !in m.records && runId !in m.required
  }

  /** A run id created again after its run was pruned starts with nothing, until it is bound again. */
  lemma {:induction false} RecreatedRunStartsUnbound(states: seq<Maps>, envs: seq<Env>, ops: seq<Op>, runId: string, i: nat, j: nat)
    requires Run(states, envs, ops) && i < j < |states|
    requires ops[i] == Pruning && !envs[i].taskExists(runId) && NeverBinds(ops, runId, i, j)
    ensures Unbound(states[j], runId)
    ensures forall env: Env :: SelectScope(states[j], env, runId).1 == None && SelectRecord(states[j], env, runId).1 == Ok(None)
    decreases j
  {
    var k := j - 1;
    assert states[k + 1] == Apply(states[k], envs[k], ops[k]);
    RunKeepsBound(states, envs, ops, k);
    if k == i {
      PruneLeavesNoOrphan(states[i], envs[i], runId);
    } else {
      RecreatedRunStartsUnbound(states, envs, ops, runId, i, k);
      RunKeepsBound(states, envs, ops, j);
    }
  }
}
