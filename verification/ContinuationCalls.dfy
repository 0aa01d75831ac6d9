/** The calls of the continuation store, each told from what is bound, stored and required before and after. */
module ContinuationCalls {
  import opened RunFence
  import opened Wrappers
  import opened Continuations

  /** Under the run's own lease, for a run and a chat that exist, the run being of that chat or of none. */
  predicate MayTouch(env: Env, runId: string, chatId: string, fence: Fence) {
    && fence == Fence(true, runId) && env.taskExists(runId) && env.chatExists(chatId)
    && (env.taskChat(runId) == None || env.taskChat(runId) == Some(chatId))
  }

  /** Binding succeeds exactly if it may and the run is bound to nothing else; it binds that run alone. */
  lemma BoundIff(m: Maps, env: Env, runId: string, scope: Option<Scope>, fence: Fence)
    ensures var outcome := BindRun(m, env, runId, scope, fence);
            && (outcome.Ok? <==> scope != None && MayTouch(env, runId, scope.value.chatId, fence)
                                 && (runId in m.scopes ==> m.scopes[runId] == scope.value))
            && (outcome.Ok? ==>
                  && runId in outcome.value.scopes && outcome.value.scopes[runId] == scope.value
                  && outcome.value.scopes.Keys == m.scopes.Keys + {runId}
                  && (forall x :: x in m.scopes ==> outcome.value.scopes[x] == m.scopes[x])
                  && outcome.value.records == m.records && outcome.value.required == m.required)
            && (outcome == Err(LeaseLost) <==> scope != None && fence != Fence(true, runId))
            && (outcome == Err(Invalid) <==> scope == None)
  {
  }

  /** Storing succeeds exactly if it may, in the scope the run is bound to, under a message of that chat that
      the run wrote; from then on the run has that record, and requires one. */
  lemma StoredIff(m: Maps, env: Env, input: Option<Record>, fence: Fence)
    ensures var (next, outcome) := Put(m, env, input, fence);
            && (outcome.Ok? <==>
                  && input != None
                  && var r := input.value;
                  && MayTouch(env, r.runId, r.scope.chatId, fence)
                  && r.runId in m.scopes && m.scopes[r.runId] == r.scope
                  && env.anchorChat(r.anchorMessageId) == Some(r.scope.chatId) && env.anchorRun(r.anchorMessageId) == Some(r.runId))
            && (outcome.Ok? ==>
                  && outcome.value == input.value && next.scopes == m.scopes
                  && next.records == m.records[input.value.runId := input.value]
                  && next.required == m.required + {input.value.runId})
            && (outcome.Err? ==> next == m)
            && (outcome == Err(LeaseLost) <==> input != None && fence != Fence(true, input.value.runId))
            && (outcome == Err(Invalid) <==> input == None)
  {
  }

  /** The message the record hangs from and its chat are there. */
  predicate Anchored(env: Env, r: Record) {
    env.chatExists(r.scope.chatId) && env.anchorChat(r.anchorMessageId) != None
  }

  /** Of a run that is there, reading answers the record stored, if the run is bound and what the record hangs
      from is there and is still its own; that it is missing, if one was required and what it hung from is not
      there; and nothing, if none ever was required. A run that is gone is forgotten. */
  lemma ReadIs(m: Maps, env: Env, runId: string)
    requires Bound(m)
    ensures var (next, outcome) := SelectRecord(m, env, runId);
            if !env.taskExists(runId) then
              && outcome == Ok(None) && Unbound(next, runId)
              && (forall x :: x != runId ==>
                    && (x in next.scopes <==> x in m.scopes) && (x in next.scopes ==> next.scopes[x] == m.scopes[x])
                    && (x in next.records <==> x in m.records) && (x in next.records ==> next.records[x] == m.records[x])
                    && (x in next.required <==> x in m.required))
            else
              && next.scopes == m.scopes && next.required == m.required
              && next.records == (if runId in m.records && !Anchored(env, m.records[runId]) then m.records - {runId} else m.records)
              && if runId in m.records && Anchored(env, m.records[runId]) then
                   outcome == if AnchorHolds(env, m.records[runId]) then Ok(Some(m.records[runId])) else Err(ScopeMismatch)
                 else outcome == if runId in m.required then Err(StateMissing) else Ok(None)
  {
  }

  /** Dropping a chat takes the records of that chat and nothing else; pruning takes all there is of the runs
      that are gone and nothing else. */
  lemma DroppedIff(m: Maps, env: Env, chatId: string)
    requires Bound(m)
    ensures var next := DeleteByChat(m, chatId);
            && next.scopes == m.scopes && next.required == m.required
            && (forall x :: x in next.records <==> x in m.records && m.records[x].scope.chatId != chatId)
            && forall x :: x in next.records ==> next.records[x] == m.records[x]
    ensures var next := PruneDeletedRuns(m, env);
            && (forall x :: x in next.scopes <==> x in m.scopes && env.taskExists(x))
            && (forall x :: x in next.records <==> x in m.records && env.taskExists(x))
            && (forall x :: x in next.required <==> x in m.required && env.taskExists(x))
            && (forall x :: x in next.scopes ==> next.scopes[x] == m.scopes[x])
            && forall x :: x in next.records ==> next.records[x] == m.records[x]
  {
    assert forall x :: x in m.required ==> x in m.scopes;
  }
}
