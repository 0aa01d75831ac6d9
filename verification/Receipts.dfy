/**
 Receipts of tool executions: an execution is admitted at most once, and one that follows an
 undecided receipt of the same call only with an approval that names that receipt.

 The map is kept in insertion order, as the source's map iterates.
 */
module Receipts {
  import opened RunFence
  import opened Wrappers

  /** `Resolved` is written by an operator elsewhere; this store only honours it. */
  datatype Status = Admitted | Completed | Resolved

  datatype Admission = Admission(executionId: string, runId: string, toolCallId: string, toolName: string,
                                 argsSha256: string, contextSha256: string, attemptId: string,
                                 approvalRequestId: Option<string>, approvalGeneration: Option<string>)

  datatype Receipt = Receipt(input: Admission, status: Status, result: Option<string>)

  datatype Error = Unreadable | LeaseLost | NotFound | NotUncertain

  /** What `readToolExecutionRecord` asks of an admission. */
  predicate HexDigit(c: char) { 'a' <= c <= 'f' || '0' <= c <= '9' }

  predicate Sha256(s: string) {
    |s| == 64 && forall c :: c in s ==> HexDigit(c)
  }

  predicate Readable(a: Admission) {
    && a.executionId != "" && a.runId != "" && a.toolCallId != "" && a.toolName != "" && a.attemptId != ""
    && Sha256(a.argsSha256) && Sha256(a.contextSha256)
    && a.approvalRequestId != Some("") && a.approvalGeneration != Some("")
  }

  // ------------------------------------------------------------------------ calls

  predicate SameCall(a: Admission, b: Admission) {
    && a.runId == b.runId && a.toolName == b.toolName
    && a.argsSha256 == b.argsSha256 && a.contextSha256 == b.contextSha256
  }

  predicate InUse(rs: seq<Receipt>, a: Admission) {
    exists r :: r in rs && (r.input.executionId == a.executionId
                            || (a.approvalRequestId.Some? && r.input.approvalRequestId == a.approvalRequestId))
  }

  /** The last receipt of the same call. */
  function Previous(rs: seq<Receipt>, a: Admission): Option<Receipt> {
    if rs == [] then None
    else if SameCall(rs[|rs| - 1].input, a) then Some(rs[|rs| - 1])
    else Previous(rs[..|rs| - 1], a)
  }

  predicate Unapproved(rs: seq<Receipt>, a: Admission) {
    var previous := Previous(rs, a);
    previous.Some? && previous.value.status == Admitted && a.approvalGeneration != Some(previous.value.input.executionId)
  }

  /** The receipts after an admission, and whether it was accepted. */
  function Admit(rs: seq<Receipt>, a: Admission, fence: Fence): Result<(seq<Receipt>, bool), Error> {
    if !Readable(a) then Err(Unreadable)
    else if !fence.holds then Err(LeaseLost)
    else if a.runId != fence.taskId then Err(NotFound)
    else if InUse(rs, a) || Unapproved(rs, a) then Ok((rs, false))
    else Ok((rs + [Receipt(a, Admitted, None)], true))
  }

  function IndexOf(rs: seq<Receipt>, id: string): (i: nat)
    ensures i <= |rs|
    ensures i < |rs| ==> rs[i].input.executionId == id
    ensures forall k :: 0 <= k < i ==> rs[k].input.executionId != id
  {
    if rs == [] || rs[0].input.executionId == id then 0 else 1 + IndexOf(rs[1..], id)
  }

  /** `result` is None for a value that is not a tool result. */
  function Complete(rs: seq<Receipt>, id: string, result: Option<string>, fence: Fence): Result<seq<Receipt>, Error> {
    var i := IndexOf(rs, id);
    if !fence.holds then Err(LeaseLost)
    else if i == |rs| || rs[i].input.runId != fence.taskId then Err(NotFound)
    else
      match rs[i].status
      case Completed => Ok(rs)
      case Resolved => Err(NotUncertain)
      case Admitted =>
        if result == None then Err(Unreadable) else Ok(rs[i := rs[i].(status := Completed, result := result)])
  }

  /** Drops the receipts of runs that are gone. */
  function Prune(rs: seq<Receipt>, alive: string -> bool): seq<Receipt> {
    if rs == [] then []
    else Prune(rs[..|rs| - 1], alive) + if alive(rs[|rs| - 1].input.runId) then [rs[|rs| - 1]] else []
  }

  class MemoryToolExecutionStore {
    var records: seq<Receipt>

    constructor ()
      ensures records == []
    {
      records := [];
    }

    method AdmitExecution(a: Admission, fence: Fence) returns (outcome: Result<bool, Error>)
      modifies this
      ensures match Admit(old(records), a, fence)
              case Err(e) => outcome == Err(e) && records == old(records)
              case Ok((rs, accepted)) => outcome == Ok(accepted) && records == rs
    {
      if !Readable(a) { return Err(Unreadable); }
      if !fence.holds { return Err(LeaseLost); }
      if a.runId != fence.taskId { return Err(NotFound); }
      var used, previous := false, None;
      for i := 0 to |records|
        invariant records == old(records)
        invariant used == InUse(records[..i], a) && previous == Previous(records[..i], a)
      {
        var r := records[i];
        assert records[..i + 1] == records[..i] + [r];
        assert records[..i + 1][..i] == records[..i];
        InUseNext(records[..i], r, a);
        if r.input.executionId == a.executionId || (a.approvalRequestId.Some? && r.input.approvalRequestId == a.approvalRequestId) {
          used := true;
        }
        if SameCall(r.input, a) { previous := Some(r); }
      }
      assert records[..|records|] == records;
      if used { return Ok(false); }
      if previous.Some? && previous.value.status == Admitted && a.approvalGeneration != Some(previous.value.input.executionId) {
        return Ok(false);
      }
      records := records + [Receipt(a, Admitted, None)];
      return Ok(true);
    }

    method CompleteExecution(id: string, result: Option<string>, fence: Fence) returns (outcome: Result<(), Error>)
      modifies this
      ensures match Complete(old(records), id, result, fence)
              case Err(e) => outcome == Err(e) && records == old(records)
              case Ok(rs) => outcome == Ok(()) && records == rs
    {
      if !fence.holds { return Err(LeaseLost); }
      var i := IndexOf(records, id);
      if i == |records| || records[i].input.runId != fence.taskId { return Err(NotFound); }
      if records[i].status == Completed { return Ok(()); }
      if records[i].status != Admitted { return Err(NotUncertain); }
      if result.None? { return Err(Unreadable); }
      records := records[i := records[i].(status := Completed, result := result)];
      return Ok(());
    }

    method PruneDeletedRuns(alive: string -> bool)
      modifies this
      ensures records == Prune(old(records), alive)
    {
      var kept := [];
      for i := 0 to |records|
        invariant records == old(records)
        invariant kept == Prune(records[..i], alive)
      {
        assert records[..i + 1][..i] == records[..i];
        if alive(records[i].input.runId) {
          kept := kept + [records[i]];
        }
      }
      assert records[..|records|] == records;
      records := kept;
    }
  }

  lemma InUseNext(front: seq<Receipt>, r: Receipt, a: Admission)
    ensures InUse(front + [r], a) <==>
            InUse(front, a) || r.input.executionId == a.executionId
            || (a.approvalRequestId.Some? && r.input.approvalRequestId == a.approvalRequestId)
  {
    if InUse(front, a) {
      var u :| u in front && (u.input.executionId == a.executionId
                              || (a.approvalRequestId.Some? && u.input.approvalRequestId == a.approvalRequestId));
      assert u in front + [r];
    }
    assert r in front + [r];
  }

  // -------------------------------------------------------------------- invariant

  predicate Apart(a: Admission, b: Admission) {
    a.executionId != b.executionId && (a.approvalRequestId.None? || a.approvalRequestId != b.approvalRequestId)
  }

  ghost predicate UsedOnce(rs: seq<Receipt>) {
    forall i, j :: 0 <= i < j < |rs| ==> Apart(rs[i].input, rs[j].input)
  }

  /** Receipt `j` directly follows receipt `i` among those of one call. */
  predicate Follows(rs: seq<Receipt>, i: nat, j: nat) {
    && i < j < |rs| && SameCall(rs[i].input, rs[j].input)
    && forall k :: i < k < j ==> !SameCall(rs[k].input, rs[j].input)
  }

  /** What follows an undecided receipt was approved against that receipt. */
  ghost predicate Approved(rs: seq<Receipt>) {
    forall i: nat, j: nat :: Follows(rs, i, j) && rs[i].status == Admitted ==>
      rs[j].input.approvalGeneration == Some(rs[i].input.executionId)
  }

  ghost predicate Chained(rs: seq<Receipt>) {
    UsedOnce(rs) && Approved(rs)
  }

  lemma {:induction false} PreviousIs(rs: seq<Receipt>, a: Admission) returns (i: int)
    ensures Previous(rs, a).Some? ==>
              0 <= i < |rs| && rs[i] == Previous(rs, a).value && SameCall(rs[i].input, a)
              && forall k :: i < k < |rs| ==> !SameCall(rs[k].input, a)
    ensures Previous(rs, a).None? ==> forall k :: 0 <= k < |rs| ==> !SameCall(rs[k].input, a)
  {
    if rs == [] {
      i := 0;
    } else if SameCall(rs[|rs| - 1].input, a) {
      i := |rs| - 1;
    } else {
      i := PreviousIs(rs[..|rs| - 1], a);
    }
  }

  lemma FollowsExtended(rs: seq<Receipt>, r: Receipt, i: nat, j: nat)
    ensures j < |rs| ==> (Follows(rs + [r], i, j) <==> Follows(rs, i, j))
  {
    assert forall k :: 0 <= k < |rs| ==> (rs + [r])[k] == rs[k];
  }

  lemma UsedOnceExtended(rs: seq<Receipt>, r: Receipt)
    requires UsedOnce(rs)
    ensures UsedOnce(rs + [r]) <==> !InUse(rs, r.input)
  {
    var qs := rs + [r];
    assert forall k :: 0 <= k < |rs| ==> qs[k] == rs[k];
    if InUse(rs, r.input) {
      var u :| u in rs && (u.input.executionId == r.input.executionId
                           || (r.input.approvalRequestId.Some? && u.input.approvalRequestId == r.input.approvalRequestId));
      var k :| 0 <= k < |rs| && rs[k] == u;
      assert !Apart(qs[k].input, qs[|rs|].input);
    } else {
      forall k | 0 <= k < |rs| ensures Apart(rs[k].input, r.input) {
        assert rs[k] in rs;
      }
    }
  }

  lemma ApprovedExtended(rs: seq<Receipt>, r: Receipt)
    requires Approved(rs)
    ensures Approved(rs + [r]) <==> !Unapproved(rs, r.input)
  {
    var qs := rs + [r];
    var p := PreviousIs(rs, r.input);
    forall i: nat, j: nat | Follows(qs, i, j) && j < |rs|
      ensures Follows(rs, i, j)
    {
      FollowsExtended(rs, r, i, j);
    }
    if Previous(rs, r.input).Some? {
      assert qs[p] == rs[p] && qs[|rs|] == r;
      assert forall k :: p < k < |rs| ==> qs[k] == rs[k];
      assert Follows(qs, p, |rs|);
    }
  }

  /**
   Of the well-formed admissions under a lease that holds, exactly those are accepted that keep
   every id used once and every receipt after an undecided one approved against it.
   */
  lemma AcceptedIffChained(rs: seq<Receipt>, a: Admission, fence: Fence)
    requires Chained(rs) && Readable(a) && fence == Fence(true, a.runId)
    ensures Admit(rs, a, fence) == Ok((rs + [Receipt(a, Admitted, None)], true)) <==> Chained(rs + [Receipt(a, Admitted, None)])
    ensures Admit(rs, a, fence) == Ok((rs, false)) <==> !Chained(rs + [Receipt(a, Admitted, None)])
  {
    UsedOnceExtended(rs, Receipt(a, Admitted, None));
    ApprovedExtended(rs, Receipt(a, Admitted, None));
    assert |rs + [Receipt(a, Admitted, None)]| == |rs| + 1;
  }

  lemma CompleteKeepsChain(rs: seq<Receipt>, id: string, result: Option<string>, fence: Fence)
    requires Chained(rs) && Complete(rs, id, result, fence).Ok?
    ensures Chained(Complete(rs, id, result, fence).value)
  {
    var qs := Complete(rs, id, result, fence).value;
    assert forall k :: 0 <= k < |rs| ==> qs[k].input == rs[k].input && (qs[k].status == Admitted ==> rs[k].status == Admitted);
    forall i: nat, j: nat | Follows(qs, i, j) ensures Follows(rs, i, j) {
    }
  }

  lemma {:induction false} PruneIs(rs: seq<Receipt>, alive: string -> bool)
    ensures forall r :: r in Prune(rs, alive) <==> r in rs && alive(r.input.runId)
  {
    if rs != [] {
      PruneIs(rs[..|rs| - 1], alive);
      assert rs == rs[..|rs| - 1] + [rs[|rs| - 1]];
    }
  }

  /** Receipts of one call share their run, so pruning keeps or drops them together. */
  lemma {:induction false} PreviousKept(rs: seq<Receipt>, alive: string -> bool, a: Admission)
    requires alive(a.runId)
    ensures Previous(Prune(rs, alive), a) == Previous(rs, a)
  {
    if rs != [] {
      var front, last := rs[..|rs| - 1], rs[|rs| - 1];
      PreviousKept(front, alive, a);
      if alive(last.input.runId) {
        assert (Prune(front, alive) + [last])[..|Prune(front, alive)|] == Prune(front, alive);
      } else {
        assert Prune(front, alive) + [] == Prune(front, alive);
      }
    }
  }

  lemma ChainedFront(front: seq<Receipt>, r: Receipt)
    requires Chained(front + [r])
    ensures Chained(front) && !InUse(front, r.input) && !Unapproved(front, r.input)
  {
    var rs := front + [r];
    assert forall k :: 0 <= k < |front| ==> rs[k] == front[k];
    forall i: nat, j: nat | Follows(front, i, j) ensures Follows(rs, i, j) {
      FollowsExtended(front, r, i, j);
    }
    UsedOnceExtended(front, r);
    ApprovedExtended(front, r);
  }

  lemma ChainedExtended(rs: seq<Receipt>, r: Receipt)
    requires Chained(rs) && !InUse(rs, r.input) && !Unapproved(rs, r.input)
    ensures Chained(rs + [r])
  {
    UsedOnceExtended(rs, r);
    ApprovedExtended(rs, r);
  }

  lemma {:induction false} PruneKeepsChain(rs: seq<Receipt>, alive: string -> bool)
    requires Chained(rs)
    ensures Chained(Prune(rs, alive))
  {
    if rs != [] {
      var front, last := rs[..|rs| - 1], rs[|rs| - 1];
      assert rs == front + [last];
      ChainedFront(front, last);
      PruneKeepsChain(front, alive);
      if alive(last.input.runId) {
        PruneIs(front, alive);
        PreviousKept(front, alive, last.input);
        ChainedExtended(Prune(front, alive), last);
      } else {
        assert Prune(front, alive) + [] == Prune(front, alive);
      }
    }
  }

  // ------------------------------------------------------------------------- runs

  datatype Op = Admitting(a: Admission, fence: Fence) | Completing(id: string, result: Option<string>, fence: Fence)
              | Pruning(alive: string -> bool)

  function Apply(rs: seq<Receipt>, op: Op): seq<Receipt> {
    match op
    case Admitting(a, fence) => (match Admit(rs, a, fence) case Ok((next, _)) => next case Err(_) => rs)
    case Completing(id, result, fence) => (match Complete(rs, id, result, fence) case Ok(next) => next case Err(_) => rs)
    case Pruning(alive) => Prune(rs, alive)
  }

  ghost predicate Run(states: seq<seq<Receipt>>, ops: seq<Op>) {
    && |states| == |ops| + 1 && states[0] == []
    && forall i :: 0 <= i < |ops| ==> states[i + 1] == Apply(states[i], ops[i])
  }

  lemma StepKeepsChain(rs: seq<Receipt>, op: Op)
    requires Chained(rs)
    ensures Chained(Apply(rs, op))
  {
    match op {
      case Admitting(a, fence) =>
        if Readable(a) && fence == Fence(true, a.runId) {
          AcceptedIffChained(rs, a, fence);
        }
      case Completing(id, result, fence) =>
        if Complete(rs, id, result, fence).Ok? {
          CompleteKeepsChain(rs, id, result, fence);
        }
      case Pruning(alive) => PruneKeepsChain(rs, alive);
    }
  }

  /** After any calls, ids are used once and undecided receipts are followed only by approval. */
  lemma {:induction false} RunKeepsChain(states: seq<seq<Receipt>>, ops: seq<Op>, i: nat)
    requires Run(states, ops) && i < |states|
    ensures Chained(states[i])
  {
    if i > 0 {
      var j := i - 1;
      RunKeepsChain(states, ops, j);
      assert states[j + 1] == Apply(states[j], ops[j]);
      StepKeepsChain(states[j], ops[j]);
    }
  }

  /** The run was not pruned away by this call. */
  predicate Spares(op: Op, runId: string) {
    op.Pruning? ==> op.alive(runId)
  }

  /** The later receipt is the earlier one, possibly completed since. */
  predicate Continues(r: Receipt, s: Receipt) {
    s.input == r.input && (r.status != Admitted ==> s == r)
  }

  lemma StepContinues(rs: seq<Receipt>, op: Op, r: Receipt) returns (s: Receipt)
    requires r in rs && Spares(op, r.input.runId)
    ensures s in Apply(rs, op) && Continues(r, s)
  {
    s := r;
    match op {
      case Admitting(a, fence) =>
      case Completing(id, result, fence) =>
        var k :| 0 <= k < |rs| && rs[k] == r;
        s := Apply(rs, op)[k];
      case Pruning(alive) => PruneIs(rs, alive);
    }
  }

  /**
   As long as its run is not pruned, a receipt stays, and once it is decided neither its result
   nor anything else of it changes.
   */
  lemma {:induction false} DecidedIsFinal(states: seq<seq<Receipt>>, ops: seq<Op>, i: nat, j: nat, r: Receipt)
    returns (s: Receipt)
    requires Run(states, ops) && i <= j < |states| && r in states[i]
    requires forall k :: i <= k < j ==> Spares(ops[k], r.input.runId)
    ensures s in states[j] && Continues(r, s)
    decreases j
  {
    if i == j {
      s := r;
    } else {
      var k := j - 1;
      var t := DecidedIsFinal(states, ops, i, k, r);
      assert states[k + 1] == Apply(states[k], ops[k]);
      s := StepContinues(states[k], ops[k], t);
    }
  }

  predicate Accepts(rs: seq<Receipt>, op: Op) {
    op.Admitting? && Admit(rs, op.a, op.fence) == Ok((rs + [Receipt(op.a, Admitted, None)], true))
  }

  /**
   No execution id and no approval request is admitted twice, on any retries, unless the run of
   the first one was pruned in between.
   */
  lemma AdmittedOnce(states: seq<seq<Receipt>>, ops: seq<Op>, i: nat, j: nat)
    requires Run(states, ops) && i < j < |ops|
    requires Accepts(states[i], ops[i]) && Accepts(states[j], ops[j])
    requires forall k :: i < k < j ==> Spares(ops[k], ops[i].a.runId)
    ensures Apart(ops[i].a, ops[j].a)
  {
    var r := Receipt(ops[i].a, Admitted, None);
    assert states[i + 1] == Apply(states[i], ops[i]) == states[i] + [r];
    var s := DecidedIsFinal(states, ops, i + 1, j, r);
    var next := states[j] + [Receipt(ops[j].a, Admitted, None)];
    assert |next| == |states[j]| + 1;
    assert !InUse(states[j], ops[j].a);
  }

  // ------------------------------------------------------- what approvals may name

  /** Receipt `j` of a call was approved against receipt `i` of it. */
  predicate Names(rs: seq<Receipt>, i: nat, j: nat) {
    i < j < |rs| && SameCall(rs[i].input, rs[j].input) && rs[j].input.approvalGeneration == Some(rs[i].input.executionId)
  }

  lemma {:induction false} Predecessor(rs: seq<Receipt>, i: nat, j: nat) returns (p: nat)
    requires i < j < |rs| && SameCall(rs[i].input, rs[j].input)
    ensures i <= p < j && Follows(rs, p, j)
    decreases j - i
  {
    if k :| i < k < j && SameCall(rs[k].input, rs[j].input) {
      p := Predecessor(rs, k, j);
    } else {
      p := i;
    }
  }

  lemma OneIndex(rs: seq<Receipt>, i: nat, p: nat)
    requires UsedOnce(rs) && i <= p < |rs| && rs[p].input.executionId == rs[i].input.executionId
    ensures p == i
  {
  }

  /**
   An execution that is admitted by naming an undecided receipt of its call directly follows that
   receipt exactly when the last receipt of the call is undecided.
   */
  lemma NextNamesIff(rs: seq<Receipt>, a: Admission, fence: Fence, i: nat)
    requires Chained(rs) && Accepts(rs, Admitting(a, fence))
    requires i < |rs| && SameCall(rs[i].input, a) && rs[i].status == Admitted
    requires a.approvalGeneration == Some(rs[i].input.executionId)
    ensures Previous(rs, a).Some?
    ensures Follows(rs + [Receipt(a, Admitted, None)], i, |rs|) <==> Previous(rs, a).value.status == Admitted
  {
    var p := PreviousIs(rs, a);
    var next := rs + [Receipt(a, Admitted, None)];
    assert forall k :: 0 <= k < |rs| ==> next[k] == rs[k];
    assert |next| == |rs| + 1 && !Unapproved(rs, a);
    assert Follows(next, p, |rs|);
    if rs[p].status == Admitted {
      OneIndex(rs, i, p);
    }
  }

  /**
   An undecided receipt that was followed already is named again, and admitted, exactly when the
   last receipt of the call is decided.
   */
  lemma NamedAgainIff(rs: seq<Receipt>, a: Admission, fence: Fence, i: nat, j: nat)
    requires Chained(rs) && Readable(a) && fence == Fence(true, a.runId) && !InUse(rs, a)
    requires i < j < |rs| && SameCall(rs[i].input, a) && SameCall(rs[j].input, a)
    requires a.approvalGeneration == Some(rs[i].input.executionId)
    ensures Previous(rs, a).Some?
    ensures Accepts(rs, Admitting(a, fence)) <==> Previous(rs, a).value.status != Admitted
  {
    var p := PreviousIs(rs, a);
    assert |rs + [Receipt(a, Admitted, None)]| == |rs| + 1;
    assert j <= p && Apart(rs[i].input, rs[p].input);
  }

  /** So while nothing of the call is decided, only the receipt directly after one names it. */
  lemma OnlyTheNextNames(rs: seq<Receipt>, i: nat, j: nat)
    requires Chained(rs) && Names(rs, i, j)
    requires forall k :: i <= k < j && SameCall(rs[k].input, rs[j].input) ==> rs[k].status == Admitted
    ensures Follows(rs, i, j)
  {
    var p := Predecessor(rs, i, j);
    assert rs[p].input.executionId == rs[i].input.executionId;
    OneIndex(rs, i, p);
  }

  /**
   With a decided receipt at the end of the call's chain, an admission may name any receipt of
   it: so an undecided receipt can be named a second time, and that execution is admitted too.
   */
  lemma NamedTwice(e: Admission, f: Admission, g: Admission, result: string)
    requires Readable(e) && Readable(f) && Readable(g) && SameCall(e, f) && SameCall(e, g)
    requires Apart(e, f) && Apart(e, g) && Apart(f, g)
    requires f.approvalGeneration == g.approvalGeneration == Some(e.executionId)
    ensures var fence := Fence(true, e.runId);
            var ops := [Admitting(e, fence), Admitting(f, fence), Completing(f.executionId, Some(result), fence), Admitting(g, fence)];
            var last := [Receipt(e, Admitted, None), Receipt(f, Completed, Some(result)), Receipt(g, Admitted, None)];
            && Apply(Apply(Apply(Apply([], ops[0]), ops[1]), ops[2]), ops[3]) == last
            && Names(last, 0, 1) && Names(last, 0, 2)
  {
    var fence := Fence(true, e.runId);
    var one := [Receipt(e, Admitted, None)];
    var two := one + [Receipt(f, Admitted, None)];
    var three := one + [Receipt(f, Completed, Some(result))];
    assert Apply([], Admitting(e, fence)) == one;
    assert Apply(one, Admitting(f, fence)) == two by {
      assert one[..0] == [];
      assert Previous(one, f) == Some(one[0]);
    }
    assert two[1..] == [Receipt(f, Admitted, None)] && IndexOf(two, f.executionId) == 1;
    assert Apply(two, Completing(f.executionId, Some(result), fence)) == three;
    assert Previous(three, g) == Some(three[1]);
    assert !InUse(three, g);
  }
}
