/** The calls of the receipt store, each told from the fields of the receipts alone. */
module ReceiptCalls {
  import opened RunFence
  import opened Wrappers
  import opened Receipts

  /** The two executions are of the same call: one run, one tool, the same arguments in the same context. */
  predicate Repeats(a: Admission, b: Admission) {
    a.runId == b.runId && a.toolName == b.toolName && a.argsSha256 == b.argsSha256 && a.contextSha256 == b.contextSha256
  }

  predicate Digest(s: string) {
    |s| == 64 && forall i :: 0 <= i < 64 ==> s[i] in "0123456789abcdef"
  }

  predicate Filled(a: Admission) {
    && |a.executionId| > 0 && |a.runId| > 0 && |a.toolCallId| > 0 && |a.toolName| > 0 && |a.attemptId| > 0
    && Digest(a.argsSha256) && Digest(a.contextSha256)
    && (a.approvalRequestId.Some? ==> |a.approvalRequestId.value| > 0)
    && (a.approvalGeneration.Some? ==> |a.approvalGeneration.value| > 0)
  }

  lemma DigestIs(s: string)
    ensures Digest(s) <==> Sha256(s)
  {
    assert forall c: char :: HexDigit(c) <==> c in "0123456789abcdef" by {
      forall c: char ensures HexDigit(c) <==> c in "0123456789abcdef" {
        HexDigits(c);
      }
    }
    if Digest(s) {
      forall c | c in s ensures HexDigit(c) {
        var i :| 0 <= i < |s| && s[i] == c;
      }
    }
  }

  lemma HexDigits(c: char)
    ensures HexDigit(c) <==> c in "0123456789abcdef"
  {
    var all := "0123456789abcdef";
    if HexDigit(c) {
      var k := if c <= '9' then c as int - 48 else c as int - 87;
      assert all[k] == c;
    }
  }

  /** A receipt there has the execution id, or the approval request, of the admission. */
  predicate Taken(rs: seq<Receipt>, a: Admission) {
    exists i :: 0 <= i < |rs| && (rs[i].input.executionId == a.executionId
                                  || (a.approvalRequestId != None && rs[i].input.approvalRequestId == a.approvalRequestId))
  }

  /** Receipt `i` is the last one of the admission's call. */
  predicate LastOf(rs: seq<Receipt>, a: Admission, i: nat) {
    && i < |rs| && Repeats(rs[i].input, a)
    && forall k :: i < k < |rs| ==> !Repeats(rs[k].input, a)
  }

  /** The last execution of the call is undecided, and the admission is not approved against it. */
  ghost predicate Undecided(rs: seq<Receipt>, a: Admission) {
    exists i: nat :: LastOf(rs, a, i) && rs[i].status == Admitted && a.approvalGeneration != Some(rs[i].input.executionId)
  }

  lemma TakenIs(rs: seq<Receipt>, a: Admission)
    ensures Taken(rs, a) <==> InUse(rs, a)
  {
    if InUse(rs, a) {
      var r :| r in rs && (r.input.executionId == a.executionId
                           || (a.approvalRequestId.Some? && r.input.approvalRequestId == a.approvalRequestId));
      var i :| 0 <= i < |rs| && rs[i] == r;
    }
  }

  lemma UndecidedIs(rs: seq<Receipt>, a: Admission)
    ensures Undecided(rs, a) <==> Unapproved(rs, a)
  {
    var p := PreviousIs(rs, a);
    if Previous(rs, a).Some? {
      assert LastOf(rs, a, p);
      if i: nat :| LastOf(rs, a, i) && rs[i].status == Admitted && a.approvalGeneration != Some(rs[i].input.executionId) {
        assert i == p;
      }
    }
  }

  /** An admission is accepted exactly if all its fields are filled, its run is the one the lease held is of,
      nothing of it is used, and it follows no undecided execution it is not approved against; it is then
      filed last, as it was submitted. Any other one changes nothing. */
  lemma AdmittedIff(rs: seq<Receipt>, a: Admission, fence: Fence)
    ensures var outcome := Admit(rs, a, fence);
            && (outcome == Err(Unreadable) <==> !Filled(a))
            && (outcome == Err(LeaseLost) <==> Filled(a) && !fence.holds)
            && (outcome == Err(NotFound) <==> Filled(a) && fence.holds && fence.taskId != a.runId)
            && (outcome.Ok? && outcome.value.1 <==>
                  Filled(a) && fence == Fence(true, a.runId) && !Taken(rs, a) && !Undecided(rs, a))
            && (outcome.Ok? && outcome.value.1 ==> outcome.value.0 == rs + [Receipt(a, Admitted, None)])
            && (outcome.Ok? && !outcome.value.1 ==> outcome.value.0 == rs)
  {
    DigestIs(a.argsSha256);
    DigestIs(a.contextSha256);
    TakenIs(rs, a);
    UndecidedIs(rs, a);
  }

  // -------------------------------------------------------------------------- completion

  /** Receipt `i` is the one of the execution, of the run the lease is of. */
  predicate Of(rs: seq<Receipt>, id: string, fence: Fence, i: nat) {
    i < |rs| && rs[i].input.executionId == id && rs[i].input.runId == fence.taskId
  }

  /** Under a lease that holds, exactly an admitted execution of its run is completed, and a completed one
      stays as it is; an operator's resolution is refused. Completing writes the status and the result of
      that one receipt. */
  lemma CompletedIff(rs: seq<Receipt>, id: string, result: Option<string>, fence: Fence)
    requires UsedOnce(rs)
    ensures var outcome := Complete(rs, id, result, fence);
            && (outcome == Err(LeaseLost) <==> !fence.holds)
            && (outcome == Err(NotFound) <==> fence.holds && forall i: nat :: !Of(rs, id, fence, i))
            && forall i: nat :: fence.holds && Of(rs, id, fence, i) ==>
                 match rs[i].status
                 case Completed => outcome == Ok(rs)
                 case Resolved => outcome == Err(NotUncertain)
                 case Admitted =>
                   if result == None then outcome == Err(Unreadable)
                   else outcome.Ok? && |outcome.value| == |rs| && outcome.value[i] == Receipt(rs[i].input, Completed, result)
                        && forall k :: 0 <= k < |rs| && k != i ==> outcome.value[k] == rs[k]
  {
    var j := IndexOf(rs, id);
    forall i: nat | Of(rs, id, fence, i) ensures i == j {
      assert j < i ==> Apart(rs[j].input, rs[i].input);
    }
    assert j < |rs| && rs[j].input.runId == fence.taskId ==> Of(rs, id, fence, j);
  }

  // ------------------------------------------------------------------------------ pruning

  lemma {:induction false} PruneConcat(xs: seq<Receipt>, ys: seq<Receipt>, alive: string -> bool)
    ensures Prune(xs + ys, alive) == Prune(xs, alive) + Prune(ys, alive)
  {
    if ys == [] {
      assert xs + ys == xs && Prune(xs, alive) + [] == Prune(xs, alive);
    } else {
      var front, last := ys[..|ys| - 1], ys[|ys| - 1];
      PruneConcat(xs, front, alive);
      assert (xs + ys)[..|xs + ys| - 1] == xs + front && (xs + ys)[|xs + ys| - 1] == last;
      var more := if alive(last.input.runId) then [last] else [];
      assert (Prune(xs, alive) + Prune(front, alive)) + more == Prune(xs, alive) + (Prune(front, alive) + more);
    }
  }

  /** Pruning takes away exactly the receipts of the runs that are gone, wherever they stand, and keeps the
      others in their order. */
  lemma PrunedIff(front: seq<Receipt>, r: Receipt, rest: seq<Receipt>, alive: string -> bool)
    ensures Prune(front + [r] + rest, alive)
            == if alive(r.input.runId) then Prune(front, alive) + [r] + Prune(rest, alive) else Prune(front + rest, alive)
  {
    PruneConcat(front + [r], rest, alive);
    PruneConcat(front, rest, alive);
    PruneConcat(front, [r], alive);
    assert [r][..0] == [];
    assert Prune([r], alive) == if alive(r.input.runId) then [r] else [] by {
      assert Prune([], alive) + [r] == [r];
    }
    assert Prune(front, alive) + [] == Prune(front, alive);
  }
}
