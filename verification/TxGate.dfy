/**
 The transaction gate: the chain of promises on which units of work run one at a time, and the
 owner token that lets a call made from inside the open unit run inline.

 Nothing here says that only one unit runs: a queued call waits for the one promise that was the
 tail of the queue when it was made, and the owner token is a variable of its own. The event loop
 may run any callback that is due, in any order.
 */
module TxGate {
  import opened Wrappers

  type CallId = nat
  type Owner = nat

  /** Where a queued call stands: its callback is not due or not run yet; its unit of work runs under
      an owner token; the unit is over and the token cleared; its place in the chain has settled. */
  datatype Phase = Waiting | Running(owner: Owner) | Leaving(ok: bool) | Settled

  /** `after` is the tail of the queue that the call found. */
  datatype Call = Call(after: Option<CallId>, phase: Phase, timed: bool, expired: bool)

  datatype Outcome = Ran(ok: bool) | TimedOut

  /** The queued calls by number, the tail of the queue, the token of the open unit, the number of
      tokens minted, and the running inline calls, each with the view it came through. The history:
      units started, in order; the call each token was minted for; what each caller was told. */
  datatype Gate = Gate(
    calls: seq<Call>,
    queue: Option<CallId>,
    currentOwner: Option<Owner>,
    owners: nat,
    inline: map<nat, Owner>,
    inlineCalls: nat,
    started: seq<CallId>,
    mintedFor: map<Owner, CallId>,
    told: map<CallId, Outcome>)

  const IDLE := Gate([], None, None, 0, map[], 0, [], map[], map[])

  datatype Step =
    | Request(view: Option<Owner>, timeoutMs: Option<int>)
    | TimerFires(id: CallId)
    | TurnComes(id: CallId)
    | InlineDone(k: nat)
    | Leave(id: CallId, ok: bool)
    | Settle(id: CallId)

  /** A timeout that is not finite (`None`) or not positive is the opt-out: no timer. */
  predicate Timed(timeoutMs: Option<int>) {
    timeoutMs.Some? && timeoutMs.value > 0
  }

  predicate RunsInline(g: Gate, view: Option<Owner>) {
    view.Some? && g.currentOwner == view
  }

  /** Decided at once: inline if the caller is the open unit, else a place at the end of the chain. */
  function RequestStep(g: Gate, view: Option<Owner>, timeoutMs: Option<int>): Gate {
    if RunsInline(g, view) then g.(inline := g.inline[g.inlineCalls := view.value], inlineCalls := g.inlineCalls + 1)
    else g.(calls := g.calls + [Call(g.queue, Waiting, Timed(timeoutMs), false)], queue := Some(|g.calls|))
  }

  predicate Is(g: Gate, id: CallId, phase: Phase) {
    id < |g.calls| && g.calls[id].phase == phase
  }

  /** The timer of a call whose turn has not come: its promise rejects, its place stays. */
  function TimerStep(g: Gate, id: CallId): Gate {
    if Is(g, id, Waiting) && g.calls[id].timed && !g.calls[id].expired
    then g.(calls := g.calls[id := g.calls[id].(expired := true)], told := g.told[id := TimedOut])
    else g
  }

  /** The promise a call waits for has settled. */
  predicate Due(g: Gate, id: CallId) {
    Is(g, id, Waiting) && (g.calls[id].after.Some? ==> Is(g, g.calls[id].after.value, Settled))
  }

  /** The callback of a queued call: refused if the caller gave up, else its unit starts under a new token. */
  function TurnStep(g: Gate, id: CallId): Gate {
    if !Due(g, id) then g
    else if g.calls[id].expired then g.(calls := g.calls[id := g.calls[id].(phase := Settled)])
    else g.(calls := g.calls[id := g.calls[id].(phase := Running(g.owners))], currentOwner := Some(g.owners),
            owners := g.owners + 1, started := g.started + [id], mintedFor := g.mintedFor[g.owners := id])
  }

  function InlineDoneStep(g: Gate, k: nat): Gate {
    g.(inline := g.inline - {k})
  }

  /** A unit of work ends, well or badly; the token is cleared, whatever it was. */
  function LeaveStep(g: Gate, id: CallId, ok: bool): Gate {
    if id < |g.calls| && g.calls[id].phase.Running?
    then g.(calls := g.calls[id := g.calls[id].(phase := Leaving(ok))], currentOwner := None)
    else g
  }

  function SettleStep(g: Gate, id: CallId): Gate {
    if id < |g.calls| && g.calls[id].phase.Leaving?
    then g.(calls := g.calls[id := g.calls[id].(phase := Settled)], told := g.told[id := Ran(g.calls[id].phase.ok)])
    else g
  }

  function Next(g: Gate, step: Step): Gate {
    match step
    case Request(view, timeoutMs) => RequestStep(g, view, timeoutMs)
    case TimerFires(id) => TimerStep(g, id)
    case TurnComes(id) => TurnStep(g, id)
    case InlineDone(k) => InlineDoneStep(g, k)
    case Leave(id, ok) => LeaveStep(g, id, ok)
    case Settle(id) => SettleStep(g, id)
  }

  function Run(g: Gate, steps: seq<Step>): Gate
    decreases steps
  {
    if steps == [] then g else Run(Next(g, steps[0]), steps[1..])
  }

  /** The class itself, with the promises it has made as `calls`. */
  class MemoryTxGate {
    var calls: seq<Call>
    var queue: Option<CallId>
    var currentOwner: Option<Owner>
    var owners: nat
    var inline: map<nat, Owner>
    var inlineCalls: nat
    ghost var started: seq<CallId>
    ghost var mintedFor: map<Owner, CallId>
    ghost var told: map<CallId, Outcome>
    const timeoutMs: Option<int>

    ghost function View(): Gate
      reads this
    {
      Gate(calls, queue, currentOwner, owners, inline, inlineCalls, started, mintedFor, told)
    }

    constructor (timeoutMs: Option<int>)
      ensures View() == IDLE && this.timeoutMs == timeoutMs
    {
      calls, queue, currentOwner, owners, inline, inlineCalls := [], None, None, 0, map[], 0;
      started, mintedFor, told := [], map[], map[];
      this.timeoutMs := timeoutMs;
    }

    method RunExclusive(view: Option<Owner>) returns (runsInline: bool)
      modifies this
      ensures View() == RequestStep(old(View()), view, timeoutMs)
      ensures runsInline == RunsInline(old(View()), view)
    {
      if view.Some? && view == currentOwner {
        inline := inline[inlineCalls := view.value];
        inlineCalls := inlineCalls + 1;
        return true;
      }
      calls := calls + [Call(queue, Waiting, timeoutMs.Some? && timeoutMs.value > 0, false)];
      queue := Some(|calls| - 1);
      return false;
    }

    method TimerFires(id: CallId)
      modifies this
      ensures View() == TimerStep(old(View()), id)
    {
      if id < |calls| && calls[id].phase == Waiting && calls[id].timed && !calls[id].expired {
        calls := calls[id := calls[id].(expired := true)];
        told := told[id := TimedOut];
      }
    }

    /** What the settled predecessor calls back: stop the timer, or refuse if it ran out; then enter. */
    method TurnComes(id: CallId)
      requires Due(View(), id)
      modifies this
      ensures View() == TurnStep(old(View()), id)
    {
      if calls[id].expired {
        calls := calls[id := calls[id].(phase := Settled)];
      } else {
        currentOwner := Some(owners);
        calls := calls[id := calls[id].(phase := Running(owners))];
        started := started + [id];
        mintedFor := mintedFor[owners := id];
        owners := owners + 1;
      }
    }

    /** The `finally` of a unit of work. */
    method Leave(id: CallId, ok: bool)
      requires id < |calls| && calls[id].phase.Running?
      modifies this
      ensures View() == LeaveStep(old(View()), id, ok)
    {
      currentOwner := None;
      calls := calls[id := calls[id].(phase := Leaving(ok))];
    }

    method Settle(id: CallId)
      requires id < |calls| && calls[id].phase.Leaving?
      modifies this
      ensures View() == SettleStep(old(View()), id)
    {
      told := told[id := Ran(calls[id].phase.ok)];
      calls := calls[id := calls[id].(phase := Settled)];
    }
  }

  // ---------------------------------------------------------------- invariant

  /** Every call waits for the one before it. */
  ghost predicate Chained(g: Gate) {
    && g.queue == (if g.calls == [] then None else Some(|g.calls| - 1))
    && forall i :: 0 <= i < |g.calls| ==> g.calls[i].after == if i == 0 then None else Some(i - 1)
  }

  /** So whatever precedes a call that got its turn has settled. */
  ghost predicate InTurn(g: Gate) {
    forall i, j :: 0 <= i < j < |g.calls| && !g.calls[j].phase.Waiting? ==> g.calls[i].phase.Settled?
  }

  /** The token is that of the unit that runs, and was minted for it. */
  ghost predicate OwnerInv(g: Gate) {
    && (forall o :: o in g.mintedFor <==> 0 <= o < g.owners)
    && (forall o :: o in g.mintedFor ==> g.mintedFor[o] < |g.calls| && !g.calls[g.mintedFor[o]].phase.Waiting?)
    && (forall i :: 0 <= i < |g.calls| && g.calls[i].phase.Running? ==>
          g.currentOwner == Some(g.calls[i].phase.owner) && g.calls[i].phase.owner in g.mintedFor
          && g.mintedFor[g.calls[i].phase.owner] == i)
    && (g.currentOwner.Some? ==> g.currentOwner.value in g.mintedFor
                                 && Is(g, g.mintedFor[g.currentOwner.value], Running(g.currentOwner.value)))
  }

  /** A call has started when its turn came and it had not given up. */
  ghost predicate HasStarted(g: Gate, id: CallId) {
    id < |g.calls| && !g.calls[id].phase.Waiting? && !g.calls[id].expired
  }

  ghost predicate StartedInv(g: Gate) {
    && (forall id :: id in g.started ==> HasStarted(g, id))
    && (forall id :: HasStarted(g, id) ==> id in g.started)
    && (forall i, j :: 0 <= i < j < |g.started| ==> g.started[i] < g.started[j])
  }

  /** What each queued caller has been told so far. */
  ghost predicate ToldInv(g: Gate) {
    && (forall id :: id in g.told ==> id < |g.calls|)
    && (forall id :: 0 <= id < |g.calls| && g.calls[id].expired ==>
          id in g.told && g.told[id] == TimedOut && (g.calls[id].phase.Waiting? || g.calls[id].phase.Settled?))
    && (forall id :: 0 <= id < |g.calls| && !g.calls[id].expired ==>
          if g.calls[id].phase.Settled? then id in g.told && g.told[id].Ran? else id !in g.told)
  }

  ghost predicate Inv(g: Gate) {
    Chained(g) && InTurn(g) && OwnerInv(g) && StartedInv(g) && ToldInv(g)
  }

  lemma RequestKeepsOrder(g: Gate, view: Option<Owner>, timeoutMs: Option<int>)
    requires Inv(g)
    ensures var g' := RequestStep(g, view, timeoutMs);
            Chained(g') && InTurn(g') && ToldInv(g')
  {
  }

  lemma RequestKeepsOwner(g: Gate, view: Option<Owner>, timeoutMs: Option<int>)
    requires Inv(g)
    ensures OwnerInv(RequestStep(g, view, timeoutMs))
  {
    var g' := RequestStep(g, view, timeoutMs);
    assert forall i :: 0 <= i < |g.calls| ==> g'.calls[i] == g.calls[i];
  }

  lemma RequestKeepsStarted(g: Gate, view: Option<Owner>, timeoutMs: Option<int>)
    requires Inv(g)
    ensures StartedInv(RequestStep(g, view, timeoutMs))
  {
    var g' := RequestStep(g, view, timeoutMs);
    forall x ensures HasStarted(g', x) <==> HasStarted(g, x) {}
  }

  lemma TimerKeeps(g: Gate, id: CallId)
    requires Inv(g)
    ensures Inv(TimerStep(g, id))
  {
    var g' := TimerStep(g, id);
    assert forall i :: 0 <= i < |g.calls| ==> g'.calls[i].after == g.calls[i].after && g'.calls[i].phase == g.calls[i].phase;
  }

  /** When a callback is due, every call before it has settled and every later one still waits. */
  lemma DueIsNext(g: Gate, id: CallId)
    requires Inv(g) && Due(g, id)
    ensures forall i :: 0 <= i < id ==> g.calls[i].phase.Settled?
    ensures forall i :: id <= i < |g.calls| ==> g.calls[i].phase.Waiting?
    ensures g.currentOwner == None
    ensures forall k :: 0 <= k < |g.started| ==> g.started[k] < id
  {
    if id > 0 {
      assert g.calls[id].after == Some(id - 1);
    }
    forall k | 0 <= k < |g.started| ensures g.started[k] < id {
      assert HasStarted(g, g.started[k]);
    }
  }

  lemma TurnKeepsOrder(g: Gate, id: CallId)
    requires Inv(g) && Due(g, id)
    ensures var g' := TurnStep(g, id);
            Chained(g') && InTurn(g') && ToldInv(g')
  {
    DueIsNext(g, id);
  }

  lemma TurnKeepsOwner(g: Gate, id: CallId)
    requires Inv(g) && Due(g, id)
    ensures OwnerInv(TurnStep(g, id))
  {
    DueIsNext(g, id);
    if g.calls[id].expired {
      GivenUpKeepsOwner(g, id);
    } else {
      EnteringKeepsOwner(g, id);
    }
  }

  lemma GivenUpKeepsOwner(g: Gate, id: CallId)
    requires OwnerInv(g) && Due(g, id) && g.calls[id].expired
    ensures OwnerInv(TurnStep(g, id))
  {
    assert forall i :: 0 <= i < |g.calls| && i != id ==> TurnStep(g, id).calls[i] == g.calls[i];
  }

  lemma EnteringKeepsOwner(g: Gate, id: CallId)
    requires OwnerInv(g) && Due(g, id) && !g.calls[id].expired
    requires forall i :: 0 <= i < |g.calls| ==> !g.calls[i].phase.Running?
    ensures OwnerInv(TurnStep(g, id))
  {
    var g' := TurnStep(g, id);
    assert forall i :: 0 <= i < |g.calls| && i != id ==> g'.calls[i] == g.calls[i];
    assert forall o :: o in g'.mintedFor && o != g.owners ==> o in g.mintedFor && g'.mintedFor[o] == g.mintedFor[o];
  }

  lemma TurnKeepsStarted(g: Gate, id: CallId)
    requires Inv(g) && Due(g, id)
    ensures StartedInv(TurnStep(g, id))
  {
    DueIsNext(g, id);
    var g' := TurnStep(g, id);
    if !g.calls[id].expired {
      forall x ensures x in g'.started <==> x in g.started || x == id {
        assert g'.started[|g.started|] == id;
      }
    }
    forall x: CallId | x != id ensures HasStarted(g', x) <==> HasStarted(g, x) {}
  }

  lemma LeaveKeeps(g: Gate, id: CallId, ok: bool)
    requires Inv(g)
    ensures Inv(LeaveStep(g, id, ok))
  {
    var g' := LeaveStep(g, id, ok);
    forall x ensures HasStarted(g', x) <==> HasStarted(g, x) {}
  }

  lemma SettleKeeps(g: Gate, id: CallId)
    requires Inv(g)
    ensures Inv(SettleStep(g, id))
  {
    var g' := SettleStep(g, id);
    forall x ensures HasStarted(g', x) <==> HasStarted(g, x) {}
  }

  lemma StepKeeps(g: Gate, step: Step)
    requires Inv(g)
    ensures Inv(Next(g, step))
  {
    match step {
      case Request(view, timeoutMs) =>
        RequestKeepsOrder(g, view, timeoutMs);
        RequestKeepsOwner(g, view, timeoutMs);
        RequestKeepsStarted(g, view, timeoutMs);
      case TimerFires(id) => TimerKeeps(g, id);
      case TurnComes(id) =>
        if Due(g, id) {
          TurnKeepsOrder(g, id);
          TurnKeepsOwner(g, id);
          TurnKeepsStarted(g, id);
        }
      case InlineDone(k) =>
      case Leave(id, ok) => LeaveKeeps(g, id, ok);
      case Settle(id) => SettleKeeps(g, id);
    }
  }

  lemma {:induction false} RunKeeps(g: Gate, steps: seq<Step>)
    requires Inv(g)
    ensures Inv(Run(g, steps))
    decreases steps
  {
    if steps != [] {
      StepKeeps(g, steps[0]);
      RunKeeps(Next(g, steps[0]), steps[1..]);
    }
  }

  // ------------------------------------------------------------- main theorems

  /** Between its turn and its settling. */
  predicate Open(g: Gate, id: CallId) {
    id < |g.calls| && (g.calls[id].phase.Running? || g.calls[id].phase.Leaving?)
  }

  /** In every run at most one unit of work is open, and there is an owner token exactly while its
      unit runs: the token minted for that unit. */
  lemma OneUnitAtATime(steps: seq<Step>, i: CallId, j: CallId)
    ensures var g := Run(IDLE, steps);
            && (Open(g, i) && Open(g, j) ==> i == j)
            && (g.currentOwner.Some? ==>
                  g.currentOwner.value in g.mintedFor && Is(g, g.mintedFor[g.currentOwner.value], Running(g.currentOwner.value)))
            && (i < |g.calls| && g.calls[i].phase.Running? ==> g.currentOwner == Some(g.calls[i].phase.owner))
  {
    RunKeeps(IDLE, steps);
  }

  /** In every run units start in arrival order, and each queued caller either runs its unit or is
      told it timed out, never both: told it ran exactly when its unit ran and settled, told it timed
      out exactly when it gave up before its turn, and told nothing else. */
  lemma ArrivalOrderAndOneAnswer(steps: seq<Step>, id: CallId)
    ensures var g := Run(IDLE, steps);
            && (forall i, j :: 0 <= i < j < |g.started| ==> g.started[i] < g.started[j])
            && (id in g.told ==> id < |g.calls| && (g.told[id].Ran? <==> id in g.started))
            && (id < |g.calls| ==>
                  (id in g.told && g.told[id].Ran? <==> g.calls[id].phase.Settled? && !g.calls[id].expired)
                  && (id in g.told && g.told[id].TimedOut? <==> g.calls[id].expired))
  {
    RunKeeps(IDLE, steps);
    var g := Run(IDLE, steps);
    assert id in g.started <==> HasStarted(g, id);
  }

  /** A call runs inline exactly if the unit its view was made for is the one that runs: a view that
      outlived its transaction never runs inline in a stranger's unit. */
  lemma ViewsRunInTheirOwnUnit(steps: seq<Step>, view: Owner)
    ensures var g := Run(IDLE, steps);
            RunsInline(g, Some(view)) <==> view in g.mintedFor && Is(g, g.mintedFor[view], Running(view))
  {
    RunKeeps(IDLE, steps);
  }

  /** What has been told never changes. */
  lemma ToldStays(g: Gate, step: Step, id: CallId)
    requires Inv(g) && id in g.told
    ensures id in Next(g, step).told && Next(g, step).told[id] == g.told[id]
  {
  }

  lemma {:induction false} RunMore(g: Gate, steps: seq<Step>, step: Step)
    ensures Run(g, steps + [step]) == Next(Run(g, steps), step)
    decreases steps
  {
    var all := steps + [step];
    if steps == [] {
      assert all[1..] == [];
    } else {
      assert all[1..] == steps[1..] + [step];
      RunMore(Next(g, steps[0]), steps[1..], step);
    }
  }

  /** While the unit of the call ran, one of the steps was that it ended so. */
  ghost predicate EndedWith(steps: seq<Step>, id: CallId, ok: bool) {
    exists k :: 0 <= k < |steps| && steps[k] == Leave(id, ok) && RunsAt(steps, k, id)
  }

  ghost predicate RunsAt(steps: seq<Step>, k: nat, id: CallId)
    requires k <= |steps|
  {
    var g := Run(IDLE, steps[..k]);
    id < |g.calls| && g.calls[id].phase.Running?
  }

  lemma EndedWithMore(steps: seq<Step>, step: Step, id: CallId, ok: bool)
    ensures EndedWith(steps + [step], id, ok) <==>
            EndedWith(steps, id, ok) || (step == Leave(id, ok) && RunsAt(steps, |steps|, id))
  {
    var all := steps + [step];
    assert forall k :: 0 <= k <= |steps| ==> all[..k] == steps[..k];
    if EndedWith(all, id, ok) {
      var k :| 0 <= k < |all| && all[k] == Leave(id, ok) && RunsAt(all, k, id);
      if k < |steps| {
        assert steps[k] == Leave(id, ok) && RunsAt(steps, k, id);
      }
    }
    if EndedWith(steps, id, ok) {
      var k :| 0 <= k < |steps| && steps[k] == Leave(id, ok) && RunsAt(steps, k, id);
      assert all[k] == Leave(id, ok) && RunsAt(all, k, id);
    }
    if step == Leave(id, ok) && RunsAt(steps, |steps|, id) {
      assert all[|steps|] == Leave(id, ok) && RunsAt(all, |steps|, id);
    }
  }

  /** Its unit ended so, and that is what it was told or will be told when it settles. */
  ghost predicate HasOutcome(g: Gate, id: CallId, ok: bool) {
    id < |g.calls| && (g.calls[id].phase == Leaving(ok) || (g.calls[id].phase == Settled && id in g.told && g.told[id] == Ran(ok)))
  }

  lemma QueueOutcome(g: Gate, step: Step, id: CallId, ok: bool)
    requires Inv(g) && (step.Request? || step.TimerFires? || step.TurnComes? || step.InlineDone?)
    ensures HasOutcome(Next(g, step), id, ok) <==> HasOutcome(g, id, ok)
  {
  }

  lemma EndOutcome(g: Gate, step: Step, id: CallId, ok: bool)
    requires Inv(g) && (step.Leave? || step.Settle?)
    ensures HasOutcome(Next(g, step), id, ok) <==>
            HasOutcome(g, id, ok) || (step == Leave(id, ok) && id < |g.calls| && g.calls[id].phase.Running?)
  {
  }

  lemma StepOutcome(g: Gate, step: Step, id: CallId, ok: bool)
    requires Inv(g)
    ensures HasOutcome(Next(g, step), id, ok) <==>
            HasOutcome(g, id, ok) || (step == Leave(id, ok) && id < |g.calls| && g.calls[id].phase.Running?)
  {
    if step.Leave? || step.Settle? {
      EndOutcome(g, step, id, ok);
    } else {
      QueueOutcome(g, step, id, ok);
    }
  }

  lemma {:induction false} OutcomeIs(steps: seq<Step>, id: CallId, ok: bool)
    ensures HasOutcome(Run(IDLE, steps), id, ok) <==> EndedWith(steps, id, ok)
    decreases |steps|
  {
    if steps != [] {
      var front, last := steps[..|steps| - 1], steps[|steps| - 1];
      assert steps == front + [last] && front[..|front|] == front;
      OutcomeIs(front, id, ok);
      RunKeeps(IDLE, front);
      RunMore(IDLE, front, last);
      StepOutcome(Run(IDLE, front), last, id, ok);
      EndedWithMore(front, last, id, ok);
    }
  }

  /** A queued caller is told of its own unit, and that it ended as it did: well exactly if it returned,
      badly exactly if it threw. */
  lemma ToldWhatHappened(steps: seq<Step>, id: CallId, ok: bool)
    ensures var g := Run(IDLE, steps);
            id in g.told && g.told[id] == Ran(ok) <==> Is(g, id, Settled) && EndedWith(steps, id, ok)
  {
    RunKeeps(IDLE, steps);
    OutcomeIs(steps, id, ok);
  }

  /** Whether the wait of a call is bounded is settled when it is made. */
  ghost predicate MadeWith(steps: seq<Step>, id: CallId, bounded: bool) {
    exists k :: 0 <= k < |steps| && MakesCall(steps, k, id, bounded)
  }

  ghost predicate MakesCall(steps: seq<Step>, k: nat, id: CallId, bounded: bool)
    requires k < |steps|
  {
    && steps[k].Request? && |Run(IDLE, steps[..k]).calls| == id && |Run(IDLE, steps[..k + 1]).calls| == id + 1
    && (bounded <==> steps[k].timeoutMs != None && steps[k].timeoutMs.value > 0)
  }

  lemma MadeWithMore(steps: seq<Step>, step: Step, id: CallId, bounded: bool)
    requires MadeWith(steps, id, bounded)
    ensures MadeWith(steps + [step], id, bounded)
  {
    var k :| 0 <= k < |steps| && MakesCall(steps, k, id, bounded);
    var all := steps + [step];
    assert all[..k] == steps[..k] && all[..k + 1] == steps[..k + 1];
    assert MakesCall(all, k, id, bounded);
  }

  lemma StepMakes(g: Gate, step: Step)
    ensures var g' := Next(g, step);
            && |g.calls| <= |g'.calls| <= |g.calls| + 1 && (forall i :: 0 <= i < |g.calls| ==> g'.calls[i].timed == g.calls[i].timed)
            && (|g'.calls| > |g.calls| ==> step.Request? && (g'.calls[|g.calls|].timed <==> step.timeoutMs != None && step.timeoutMs.value > 0))
  {
  }

  lemma {:induction false} EveryCallWasMade(steps: seq<Step>, id: CallId)
    requires id < |Run(IDLE, steps).calls|
    ensures MadeWith(steps, id, Run(IDLE, steps).calls[id].timed)
    decreases |steps|
  {
    var front, last := steps[..|steps| - 1], steps[|steps| - 1];
    assert steps == front + [last];
    RunMore(IDLE, front, last);
    var g, g' := Run(IDLE, front), Run(IDLE, steps);
    StepMakes(g, last);
    if id < |g.calls| {
      EveryCallWasMade(front, id);
      MadeWithMore(front, last, id, g.calls[id].timed);
    } else {
      assert steps[..|front|] == front && steps[..|steps|] == steps;
      assert MakesCall(steps, |front|, id, g'.calls[id].timed);
    }
  }

  /** In every run, the timer can tell a waiting call that it timed out exactly if it was made with a finite
      and positive timeout: any other one waits without a bound. */
  lemma TimesOutIff(steps: seq<Step>, id: CallId)
    requires Is(Run(IDLE, steps), id, Waiting) && !Run(IDLE, steps).calls[id].expired
    ensures MadeWith(steps, id, Run(IDLE, steps).calls[id].timed)
    ensures var e := Run(IDLE, steps + [TimerFires(id)]);
            (id in e.told && e.told[id] == TimedOut) <==> Run(IDLE, steps).calls[id].timed
  {
    RunKeeps(IDLE, steps);
    RunMore(IDLE, steps, TimerFires(id));
    EveryCallWasMade(steps, id);
  }

  // ------------------------------------------------------------- inline calls

  /** Every running inline call came through the view of the unit that runs. */
  ghost predicate Inside(g: Gate) {
    forall k :: k in g.inline ==> g.currentOwner == Some(g.inline[k])
  }

  /** An inline call that has ended is open no longer, and no other one is touched. */
  lemma InlineCallEnds(g: Gate, k: nat)
    ensures var e := Next(g, InlineDone(k));
            k !in e.inline && (forall x :: x in g.inline && x != k ==> x in e.inline && e.inline[x] == g.inline[x])
            && e.(inline := g.inline) == g
  {
  }

  /** A unit of work that ends has no inline call of its own view still running. */
  predicate Awaits(g: Gate, step: Step) {
    step.Leave? && step.id < |g.calls| && g.calls[step.id].phase.Running? ==>
      forall k :: k in g.inline ==> g.inline[k] != g.calls[step.id].phase.owner
  }

  predicate AllAwaited(g: Gate, steps: seq<Step>)
    decreases steps
  {
    steps == [] || (Awaits(g, steps[0]) && AllAwaited(Next(g, steps[0]), steps[1..]))
  }

  ghost predicate AlwaysInside(g: Gate, steps: seq<Step>)
    decreases steps
  {
    Inside(g) && (steps != [] ==> AlwaysInside(Next(g, steps[0]), steps[1..]))
  }

  lemma StepInsideIff(g: Gate, step: Step)
    requires Inv(g) && Inside(g)
    ensures Inside(Next(g, step)) <==> Awaits(g, step)
  {
    if step.TurnComes? && Due(g, step.id) {
      DueIsNext(g, step.id);
    }
  }

  lemma {:induction false} RunInsideIff(g: Gate, steps: seq<Step>)
    requires Inv(g) && Inside(g)
    ensures AlwaysInside(g, steps) <==> AllAwaited(g, steps)
    decreases steps
  {
    if steps != [] {
      var g' := Next(g, steps[0]);
      StepKeeps(g, steps[0]);
      StepInsideIff(g, steps[0]);
      if Inside(g') {
        RunInsideIff(g', steps[1..]);
      } else {
        assert !AlwaysInside(g', steps[1..]);
      }
    }
  }

  /** In every state of a run, all that runs inline belongs to the one open unit, exactly if every
      callback awaits the nested calls it made. */
  lemma NothingRunsOutsideTheUnit(steps: seq<Step>)
    ensures AlwaysInside(IDLE, steps) <==> AllAwaited(IDLE, steps)
  {
    RunInsideIff(IDLE, steps);
  }

  /** Without that discipline a nested call can still be running inside a stranger's unit. */
  lemma UnawaitedCallStrays()
    ensures var running := Next(Next(IDLE, Request(None, None)), TurnComes(0));
            var leaving := Next(Next(running, Request(Some(0), None)), Leave(0, true));
            var g := Next(Next(Next(leaving, Settle(0)), Request(None, None)), TurnComes(1));
            Is(g, 1, Running(1)) && g.currentOwner == Some(1) && g.inline == map[0 := 0]
  {
    var running := Next(Next(IDLE, Request(None, None)), TurnComes(0));
    var leaving := Next(Next(running, Request(Some(0), None)), Leave(0, true));
    var g := Next(Next(leaving, Settle(0)), Request(None, None));
    assert g.calls == [Call(None, Settled, false, false), Call(Some(0), Waiting, false, false)];
    assert Due(g, 1);
  }

  // ---------------------------------------------------------------- draining

  /** Nothing is open: each call has settled or still waits. */
  ghost predicate Quiet(g: Gate) {
    forall i :: 0 <= i < |g.calls| ==> g.calls[i].phase.Waiting? || g.calls[i].phase.Settled?
  }

  /** Let the calls from `first` on have their turns, run and settle, each as it pleases. */
  function Rounds(first: CallId, oks: seq<bool>): seq<Step>
    decreases oks
  {
    if oks == [] then [] else [TurnComes(first), Leave(first, oks[0])] + ([Settle(first)] + Rounds(first + 1, oks[1..]))
  }

  /** The calls from `first` on that have not given up. */
  function Live(calls: seq<Call>, first: CallId): seq<CallId>
    requires first <= |calls|
    decreases |calls| - first
  {
    if first == |calls| then []
    else (if calls[first].expired then [] else [first]) + Live(calls, first + 1)
  }

  /** All before `first` have settled, and all from there on wait. */
  ghost predicate SettledTo(g: Gate, first: CallId) {
    && first <= |g.calls|
    && (forall i :: 0 <= i < first ==> g.calls[i].phase.Settled?)
    && (forall i :: first <= i < |g.calls| ==> g.calls[i].phase.Waiting?)
  }

  lemma QuietIsSettledTo(g: Gate) returns (first: CallId)
    requires Inv(g) && Quiet(g)
    ensures SettledTo(g, first)
  {
    first := 0;
    while first < |g.calls| && g.calls[first].phase.Settled?
      invariant first <= |g.calls| && forall i :: 0 <= i < first ==> g.calls[i].phase.Settled?
    {
      first := first + 1;
    }
  }

  function Round(g: Gate, first: CallId, ok: bool): Gate {
    Next(Next(Next(g, TurnComes(first)), Leave(first, ok)), Settle(first))
  }

  lemma OneRound(g: Gate, first: CallId, ok: bool)
    requires Chained(g) && SettledTo(g, first) && first < |g.calls|
    ensures var e := Round(g, first, ok);
            && Chained(e) && SettledTo(e, first + 1) && |e.calls| == |g.calls|
            && (forall i :: 0 <= i < |g.calls| ==> e.calls[i].expired == g.calls[i].expired)
            && e.started == (g.started + if g.calls[first].expired then [] else [first])
            && e.told == if g.calls[first].expired then g.told else g.told[first := Ran(ok)]
  {
    assert Due(g, first);
    assert g.started + [] == g.started;
    assert Round(g, first, ok).calls == g.calls[first := g.calls[first].(phase := Settled)];
    assert Round(g, first, ok).queue == g.queue;
  }

  lemma {:induction false} LiveOf(a: seq<Call>, b: seq<Call>, first: CallId)
    requires first <= |a| == |b| && forall i :: 0 <= i < |a| ==> a[i].expired == b[i].expired
    ensures Live(a, first) == Live(b, first)
    decreases |a| - first
  {
    if first < |a| {
      LiveOf(a, b, first + 1);
    }
  }

  lemma RunTwo(g: Gate, a: Step, b: Step, rest: seq<Step>)
    ensures Run(g, [a, b] + rest) == Run(Next(Next(g, a), b), rest)
  {
    var steps := [a, b] + rest;
    assert steps[1..] == [b] + rest && ([b] + rest)[1..] == rest;
    assert Run(g, steps) == Run(Next(g, a), [b] + rest);
  }

  lemma RunRound(g: Gate, first: CallId, oks: seq<bool>) returns (e: Gate)
    requires Chained(g) && SettledTo(g, first) && first < |g.calls| && oks != []
    ensures Run(g, Rounds(first, oks)) == Run(e, Rounds(first + 1, oks[1..]))
    ensures Chained(e) && SettledTo(e, first + 1) && |e.calls| == |g.calls|
    ensures forall i :: 0 <= i < |g.calls| ==> e.calls[i].expired == g.calls[i].expired
    ensures e.started == g.started + if g.calls[first].expired then [] else [first]
    ensures e.told == if g.calls[first].expired then g.told else g.told[first := Ran(oks[0])]
  {
    e := Round(g, first, oks[0]);
    OneRound(g, first, oks[0]);
    var rest := Rounds(first + 1, oks[1..]);
    RunTwo(g, TurnComes(first), Leave(first, oks[0]), [Settle(first)] + rest);
    assert ([Settle(first)] + rest)[1..] == rest;
  }

  lemma Joined(started: seq<CallId>, first: seq<CallId>, rest: seq<CallId>)
    ensures (started + first) + rest == started + (first + rest)
  {
  }

  /** Each call from `first` on is told how its own unit ended, unless it gave up; nobody else is told anything. */
  ghost predicate AllTold(g: Gate, e: Gate, first: CallId, oks: seq<bool>)
    requires first + |oks| == |g.calls|
  {
    && (forall i :: first <= i < |g.calls| && !g.calls[i].expired ==> i in e.told && e.told[i] == Ran(oks[i - first]))
    && (forall i :: i in e.told ==> i in g.told || (first <= i < |g.calls| && !g.calls[i].expired))
    && (forall i :: i in g.told && !(first <= i < |g.calls| && !g.calls[i].expired) ==> i in e.told && e.told[i] == g.told[i])
  }

  lemma ToldOnwards(g: Gate, mid: Gate, e: Gate, first: CallId, oks: seq<bool>)
    requires oks != [] && first + |oks| == |g.calls| == |mid.calls|
    requires forall i :: 0 <= i < |g.calls| ==> mid.calls[i].expired == g.calls[i].expired
    requires mid.told == if g.calls[first].expired then g.told else g.told[first := Ran(oks[0])]
    requires AllTold(mid, e, first + 1, oks[1..])
    ensures AllTold(g, e, first, oks)
  {
    assert forall k :: 0 <= k < |oks| - 1 ==> oks[1..][k] == oks[k + 1];
  }

  lemma StartedOnwards(g: Gate, e: Gate, first: CallId)
    requires first < |g.calls| == |e.calls| && forall i :: 0 <= i < |g.calls| ==> e.calls[i].expired == g.calls[i].expired
    requires e.started == g.started + if g.calls[first].expired then [] else [first]
    ensures e.started + Live(e.calls, first + 1) == g.started + Live(g.calls, first)
  {
    LiveOf(g.calls, e.calls, first + 1);
    Joined(g.started, if g.calls[first].expired then [] else [first], Live(g.calls, first + 1));
  }

  /** All have settled, those that had not given up started in order, and were told. */
  ghost predicate Drained(g: Gate, e: Gate, first: CallId, oks: seq<bool>)
    requires first + |oks| == |g.calls|
  {
    && SettledTo(e, |g.calls|) && |e.calls| == |g.calls| && e.started == g.started + Live(g.calls, first)
    && AllTold(g, e, first, oks)
  }

  lemma DrainsOn(g: Gate, mid: Gate, e: Gate, first: CallId, oks: seq<bool>)
    requires oks != [] && first + |oks| == |g.calls| == |mid.calls|
    requires forall i :: 0 <= i < |g.calls| ==> mid.calls[i].expired == g.calls[i].expired
    requires mid.started == g.started + if g.calls[first].expired then [] else [first]
    requires mid.told == if g.calls[first].expired then g.told else g.told[first := Ran(oks[0])]
    requires Drained(mid, e, first + 1, oks[1..])
    ensures Drained(g, e, first, oks)
  {
    ToldOnwards(g, mid, e, first, oks);
    StartedOnwards(g, mid, first);
  }

  /** A turn that was given up or whose unit fails neither blocks nor reorders those behind it: from
      any quiet state, one round per waiting call settles all of them, and starts exactly those that
      had not given up, in order. */
  lemma {:induction false} TheQueueDrains(g: Gate, first: CallId, oks: seq<bool>)
    requires Chained(g) && SettledTo(g, first) && |oks| == |g.calls| - first
    ensures Drained(g, Run(g, Rounds(first, oks)), first, oks)
    decreases oks
  {
    if oks == [] {
      assert g.started + [] == g.started;
    } else {
      var e := RunRound(g, first, oks);
      TheQueueDrains(e, first + 1, oks[1..]);
      DrainsOn(g, e, Run(e, Rounds(first + 1, oks[1..])), first, oks);
    }
  }

  /** In every run: once nothing is open, the queue drains so, however the units that wait end. */
  lemma EveryQuietQueueDrains(steps: seq<Step>) returns (first: CallId)
    requires Quiet(Run(IDLE, steps))
    ensures var g := Run(IDLE, steps);
            && SettledTo(g, first)
            && forall oks: seq<bool> | |oks| == |g.calls| - first ::
                 Drained(g, Run(g, Rounds(first, oks)), first, oks)
  {
    var g := Run(IDLE, steps);
    RunKeeps(IDLE, steps);
    first := QuietIsSettledTo(g);
    forall oks: seq<bool> | |oks| == |g.calls| - first
      ensures Drained(g, Run(g, Rounds(first, oks)), first, oks)
    {
      TheQueueDrains(g, first, oks);
    }
  }
}
