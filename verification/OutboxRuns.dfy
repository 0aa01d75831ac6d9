/**
 Runs of the outbox: how often, when and for how long a record is handed out, and that pruning
 changes none of it.
 */
module OutboxRuns {
  import opened Wrappers
  import opened Outbox

  datatype Op = Adding(e: Entry, now: int) | Claiming(now: int, limit: int) | Publishing(id: string, at: int)
              | Failing(id: string, error: string, retryAt: int) | Pruning(before: int)

  function Apply(b: Box, op: Op, limits: Limits): Box {
    match op
    case Adding(e, now) => Enqueue(b, e, now)
    case Claiming(now, limit) => ClaimBatch(b, now, limit, limits).0
    case Publishing(id, at) => (match MarkPublished(b, id, at) case Ok(next) => next case Err(_) => b)
    case Failing(id, error, retryAt) => (match MarkFailed(b, id, error, retryAt) case Ok(next) => next case Err(_) => b)
    case Pruning(before) => Prune(b, before, limits)
  }

  /** What a call hands out. */
  function Given(b: Box, op: Op, limits: Limits): seq<Record> {
    if op.Claiming? then Claimed(b, op.now, op.limit, limits).GetOr([]) else []
  }

  /** The batch of a claim, if it does not throw. */
  function Claimed(b: Box, now: int, limit: int, limits: Limits): Option<seq<Record>> {
    match ClaimBatch(b, now, limit, limits).1 case Ok(claimed) => Some(claimed) case Err(_) => None
  }

  /** What a caller sees of it: the batch, or that it threw. */
  function Seen(b: Box, op: Op, limits: Limits): Option<seq<Record>> {
    if op.Claiming? then Claimed(b, op.now, op.limit, limits) else Some([])
  }

  /** The first record on offer, the one a claim that throws counts in vain. */
  function FirstOffered(records: map<string, Record>, ids: seq<string>, now: int, limits: Limits): Option<string> {
    if ids == [] then None
    else if ids[0] in records && Offered(records[ids[0]], now, limits) then Some(ids[0])
    else FirstOffered(records, ids[1..], now, limits)
  }

  /** One attempt of the record is spent and the record not handed out. */
  function InVain(b: Box, op: Op, limits: Limits, id: string): nat {
    if op.Claiming? && op.limit > 0 && Throws(op.now, limits) && FirstOffered(b.records, b.order, op.now, limits) == Some(id)
    then 1 else 0
  }

  /** How often a batch holds the record of that id. */
  function Times(claimed: seq<Record>, id: string): nat {
    if claimed == [] then 0 else (if claimed[0].id == id then 1 else 0) + Times(claimed[1..], id)
  }

  predicate Keyed(records: map<string, Record>) {
    forall id :: id in records ==> records[id].id == id
  }

  // ------------------------------------------------------------------ one batch

  /** A claim that throws spends one attempt of the first record on offer, and hands out nothing. */
  lemma {:induction false} ThrownEffect(records: map<string, Record>, ids: seq<string>, now: int, limit: int, limits: Limits)
    requires Keyed(records) && Throws(now, limits)
    ensures var b := ClaimFrom(records, ids, now, limit, limits);
            match if limit > 0 then FirstOffered(records, ids, now, limits) else None
            case None => b == Batch(records, [], false)
            case Some(id) =>
              && id in records && Offered(records[id], now, limits)
              && b == Batch(records[id := Wasted(records[id])], [], true)
    decreases ids
  {
    if ids != [] && limit > 0 && !(ids[0] in records && Offered(records[ids[0]], now, limits)) {
      ThrownEffect(records, ids[1..], now, limit, limits);
    }
  }

  /** What a batch does to one id: as many attempts spent as hand-outs, each of a record on offer. */
  lemma {:induction false} ClaimEffect(records: map<string, Record>, ids: seq<string>, now: int, limit: int, limits: Limits, id: string)
    requires Keyed(records) && !Throws(now, limits)
    ensures var b := ClaimFrom(records, ids, now, limit, limits);
            && !b.thrown && Keyed(b.records) && b.records.Keys == records.Keys
            && (id !in records ==> Times(b.claimed, id) == 0)
            && (id in records && Times(b.claimed, id) == 0 ==> b.records[id] == records[id])
            && (id in records && Times(b.claimed, id) > 0 ==>
                  && Offered(records[id], now, limits)
                  && b.records[id].attempts == records[id].attempts + Times(b.claimed, id) <= limits.maxAttempts
                  && b.records[id].availableAt == now + limits.claimVisibilityMs)
    decreases ids
  {
    if ids != [] && limit > 0 {
      if ids[0] in records && Offered(records[ids[0]], now, limits) {
        var r := Handed(records[ids[0]], now, limits);
        var later := ClaimFrom(records[ids[0] := r], ids[1..], now, limit - 1, limits);
        ClaimEffect(records[ids[0] := r], ids[1..], now, limit - 1, limits, id);
        assert ([r] + later.claimed)[1..] == later.claimed;
      } else {
        ClaimEffect(records, ids[1..], now, limit, limits, id);
      }
    }
  }

  /** Exactly then a claim throws, and that attempt is spent in vain. */
  lemma ClaimThrowsIff(b: Box, now: int, limit: int, limits: Limits)
    requires Keyed(b.records)
    ensures ClaimBatch(b, now, limit, limits).1.Err? <==>
            limit > 0 && Throws(now, limits) && FirstOffered(b.records, b.order, now, limits).Some?
    ensures ClaimBatch(b, now, limit, limits).1.Err? ==>
              var id := FirstOffered(b.records, b.order, now, limits).value;
              id in b.records && ClaimBatch(b, now, limit, limits).0 == b.(records := b.records[id := Wasted(b.records[id])])
  {
    if Throws(now, limits) {
      ThrownEffect(b.records, b.order, now, limit, limits);
    } else {
      ClaimEffect(b.records, b.order, now, limit, limits, "");
    }
  }

  ghost predicate Distinct(ids: seq<string>) {
    forall i, j :: 0 <= i < j < |ids| ==> ids[i] != ids[j]
  }

  lemma {:induction false} ClaimedAreListed(records: map<string, Record>, ids: seq<string>, now: int, limit: int, limits: Limits, id: string)
    requires Keyed(records)
    ensures id !in ids ==> Times(ClaimFrom(records, ids, now, limit, limits).claimed, id) == 0
    ensures Distinct(ids) ==> Times(ClaimFrom(records, ids, now, limit, limits).claimed, id) <= 1
    ensures |ClaimFrom(records, ids, now, limit, limits).claimed| <= if limit > 0 then limit else 0
    decreases ids
  {
    if ids != [] && limit > 0 {
      if ids[0] in records && Offered(records[ids[0]], now, limits) {
        var r := Handed(records[ids[0]], now, limits);
        var later := ClaimFrom(records[ids[0] := r], ids[1..], now, limit - 1, limits);
        ClaimedAreListed(records[ids[0] := r], ids[1..], now, limit - 1, limits, id);
        assert ([r] + later.claimed)[1..] == later.claimed;
      } else {
        ClaimedAreListed(records, ids[1..], now, limit, limits, id);
      }
    }
  }

  // ------------------------------------------------------------------------ runs

  ghost predicate Run(states: seq<Box>, ops: seq<Op>, limits: Limits) {
    && |states| == |ops| + 1 && states[0] == EMPTY_BOX
    && forall i :: 0 <= i < |ops| ==> states[i + 1] == Apply(states[i], ops[i], limits)
  }

  lemma StepKeepsKeys(b: Box, op: Op, limits: Limits)
    requires Keyed(b.records)
    ensures Keyed(Apply(b, op, limits).records)
  {
    if op.Claiming? {
      if Throws(op.now, limits) {
        ThrownEffect(b.records, b.order, op.now, op.limit, limits);
      } else {
        ClaimEffect(b.records, b.order, op.now, op.limit, limits, "");
      }
    }
  }

  lemma {:induction false} RunKeepsKeys(states: seq<Box>, ops: seq<Op>, limits: Limits, i: nat)
    requires Run(states, ops, limits) && i < |states|
    ensures Keyed(states[i].records)
  {
    if i > 0 {
      var j := i - 1;
      RunKeepsKeys(states, ops, limits, j);
      assert states[j + 1] == Apply(states[j], ops[j], limits);
      StepKeepsKeys(states[j], ops[j], limits);
    }
  }

  /** The id is not enqueued again by these calls. */
  predicate NotReused(ops: seq<Op>, id: string, i: nat, j: nat) {
    i <= j <= |ops| && forall k :: i <= k < j ==> !(ops[k].Adding? && ops[k].e.id == id)
  }

  function Total(states: seq<Box>, ops: seq<Op>, limits: Limits, id: string, i: nat, j: nat): nat
    requires i <= j <= |ops| < |states|
  {
    if i == j then 0 else Total(states, ops, limits, id, i, j - 1) + Times(Given(states[j - 1], ops[j - 1], limits), id)
  }

  function TotalInVain(states: seq<Box>, ops: seq<Op>, limits: Limits, id: string, i: nat, j: nat): nat
    requires i <= j <= |ops| < |states|
  {
    if i == j then 0 else TotalInVain(states, ops, limits, id, i, j - 1) + InVain(states[j - 1], ops[j - 1], limits, id)
  }

  /** What a call does to one id: attempts spent by hand-outs, or one of them in vain. */
  lemma StepEffect(b: Box, op: Op, limits: Limits, id: string)
    requires Keyed(b.records) && !(op.Adding? && op.e.id == id)
    ensures var next := Apply(b, op, limits);
            var times, vain := Times(Given(b, op, limits), id), InVain(b, op, limits, id);
            && (id in next.records ==> id in b.records && next.records[id].attempts == b.records[id].attempts + times + vain)
            && (times + vain > 0 ==> id in next.records && next.records[id].attempts <= limits.maxAttempts)
            && (times > 0 ==> Offered(b.records[id], op.now, limits)
                              && next.records[id].availableAt == op.now + limits.claimVisibilityMs)
            && (id in next.records && times == 0 && !(op.Failing? && op.id == id) ==>
                  next.records[id].availableAt == b.records[id].availableAt)
            && (id in next.records && b.records[id].publishedAt.Some? ==> next.records[id].publishedAt.Some?)
  {
    if op.Claiming? {
      if Throws(op.now, limits) {
        ThrownEffect(b.records, b.order, op.now, op.limit, limits);
      } else {
        ClaimEffect(b.records, b.order, op.now, op.limit, limits, id);
      }
    }
  }

  /** No record is handed out more than `maxAttempts` times, less the claims that threw on it: its
      attempts are the hand-outs and these. */
  lemma {:induction false} HandedOutAtMost(states: seq<Box>, ops: seq<Op>, limits: Limits, id: string, i: nat, j: nat)
    requires Run(states, ops, limits) && i < j <= |ops|
    requires ops[i].Adding? && ops[i].e.id == id && NotReused(ops, id, i + 1, j)
    ensures var spent := Total(states, ops, limits, id, i + 1, j) + TotalInVain(states, ops, limits, id, i + 1, j);
            && spent <= (if limits.maxAttempts > 0 then limits.maxAttempts else 0)
            && (id in states[j].records ==> states[j].records[id].attempts == spent)
    decreases j
  {
    var k := j - 1;
    assert states[k + 1] == Apply(states[k], ops[k], limits);
    if k > i {
      HandedOutAtMost(states, ops, limits, id, i, k);
      RunKeepsKeys(states, ops, limits, k);
      StepEffect(states[k], ops[k], limits, id);
    }
  }

  lemma {:induction false} StaysPublished(states: seq<Box>, ops: seq<Op>, limits: Limits, id: string, i: nat, j: nat)
    requires Run(states, ops, limits) && i <= j <= |ops| && NotReused(ops, id, i, j)
    requires id in states[i].records ==> states[i].records[id].publishedAt.Some?
    ensures id in states[j].records ==> states[j].records[id].publishedAt.Some?
    decreases j
  {
    if i < j {
      var k := j - 1;
      StaysPublished(states, ops, limits, id, i, k);
      RunKeepsKeys(states, ops, limits, k);
      assert states[k + 1] == Apply(states[k], ops[k], limits);
      StepEffect(states[k], ops[k], limits, id);
    }
  }

  /** A published record is never handed out again. */
  lemma NotAfterPublishing(states: seq<Box>, ops: seq<Op>, limits: Limits, id: string, i: nat, j: nat)
    requires Run(states, ops, limits) && i < j < |ops| && NotReused(ops, id, i, j)
    requires ops[i].Publishing? && ops[i].id == id && id in states[i].records
    ensures Times(Given(states[j], ops[j], limits), id) == 0
  {
    assert states[i + 1] == Apply(states[i], ops[i], limits);
    StaysPublished(states, ops, limits, id, i + 1, j);
    RunKeepsKeys(states, ops, limits, j);
    if ops[j].Claiming? {
      StepEffect(states[j], ops[j], limits, id);
    }
  }

  /** Between these calls, nothing hands the record out or marks it failed. */
  predicate LeftAlone(states: seq<Box>, ops: seq<Op>, limits: Limits, id: string, i: nat, j: nat)
    requires |ops| < |states|
  {
    && NotReused(ops, id, i, j)
    && forall k :: i <= k < j ==> Times(Given(states[k], ops[k], limits), id) == 0 && !(ops[k].Failing? && ops[k].id == id)
  }

  lemma {:induction false} StaysInvisible(states: seq<Box>, ops: seq<Op>, limits: Limits, id: string, i: nat, j: nat, at: int)
    requires Run(states, ops, limits) && i <= j <= |ops| && LeftAlone(states, ops, limits, id, i, j)
    requires id in states[i].records ==> states[i].records[id].availableAt == at
    ensures id in states[j].records ==> states[j].records[id].availableAt == at
    decreases j
  {
    if i < j {
      var k := j - 1;
      StaysInvisible(states, ops, limits, id, i, k, at);
      RunKeepsKeys(states, ops, limits, k);
      assert states[k + 1] == Apply(states[k], ops[k], limits);
      StepEffect(states[k], ops[k], limits, id);
    }
  }

  /** Two hand-outs of a record, nothing failed in between, are at least the visibility window apart. */
  lemma HandOutsAreSpaced(states: seq<Box>, ops: seq<Op>, limits: Limits, id: string, i: nat, j: nat)
    requires Run(states, ops, limits) && i < j < |ops|
    requires ops[i].Claiming? && Times(Given(states[i], ops[i], limits), id) > 0
    requires ops[j].Claiming? && Times(Given(states[j], ops[j], limits), id) > 0
    requires LeftAlone(states, ops, limits, id, i + 1, j)
    ensures ops[j].now >= ops[i].now + limits.claimVisibilityMs
  {
    RunKeepsKeys(states, ops, limits, i);
    RunKeepsKeys(states, ops, limits, j);
    assert states[i + 1] == Apply(states[i], ops[i], limits);
    StepEffect(states[i], ops[i], limits, id);
    StaysInvisible(states, ops, limits, id, i + 1, j, ops[i].now + limits.claimVisibilityMs);
    StepEffect(states[j], ops[j], limits, id);
  }

  // ------------------------------------------------------------ pruning is invisible

  /** The order lists exactly the ids of the map, once each. */
  ghost predicate InStep(b: Box) {
    Distinct(b.order) && (forall id :: id in b.order <==> id in b.records) && Keyed(b.records)
  }

  predicate Fresh(b: Box, op: Op) {
    op.Adding? ==> op.e.id !in b.records
  }

  /** The list without any mention of these ids. */
  function Drop(ids: seq<string>, dead: set<string>): seq<string> {
    if ids == [] then [] else (if ids[0] in dead then [] else [ids[0]]) + Drop(ids[1..], dead)
  }

  lemma {:induction false} DropIs(ids: seq<string>, dead: set<string>)
    ensures forall id :: id in Drop(ids, dead) <==> id in ids && id !in dead
    ensures Distinct(ids) ==> Distinct(Drop(ids, dead))
  {
    if ids != [] {
      DropIs(ids[1..], dead);
    }
  }

  lemma {:induction false} DropConcat(xs: seq<string>, ys: seq<string>, dead: set<string>)
    ensures Drop(xs + ys, dead) == Drop(xs, dead) + Drop(ys, dead)
  {
    if xs == [] {
      assert xs + ys == ys;
    } else {
      assert (xs + ys)[1..] == xs[1..] + ys;
      DropConcat(xs[1..], ys, dead);
    }
  }

  /** With each id mentioned once, dropping the first mentions drops them all. */
  lemma {:induction false} WithoutIsDrop(ids: seq<string>, dead: set<string>, gone: set<string>)
    requires Distinct(ids) && gone <= dead && forall id :: id in ids && id in dead ==> id in gone
    ensures Without(ids, gone) == Drop(ids, dead)
  {
    if ids != [] {
      var first := ids[0];
      assert forall id :: id in ids[1..] ==> id != first;
      WithoutIsDrop(ids[1..], dead, if first in gone then gone - {first} else gone);
    }
  }

  lemma {:induction false} DropOfWithout(ids: seq<string>, gone: set<string>, dead: set<string>)
    ensures Drop(Without(ids, gone), dead) == Without(Drop(ids, dead), gone - dead)
  {
    if ids != [] {
      var first, rest := ids[0], ids[1..];
      var left := if first in gone then gone - {first} else gone;
      DropOfWithout(rest, left, dead);
      if first in dead {
        assert [] + Drop(rest, dead) == Drop(rest, dead) && left - dead == gone - dead;
        assert first !in gone ==> Drop([first] + Without(rest, gone), dead) == Drop(Without(rest, gone), dead) by {
          DropConcat([first], Without(rest, gone), dead);
          assert Drop([first], dead) == [];
        }
      } else {
        assert Drop(ids, dead) == [first] + Drop(rest, dead);
        assert ([first] + Drop(rest, dead))[1..] == Drop(rest, dead);
        assert first in gone ==> left - dead == (gone - dead) - {first};
        assert first !in gone ==> Drop([first] + Without(rest, gone), dead) == [first] + Drop(Without(rest, gone), dead) by {
          DropConcat([first], Without(rest, gone), dead);
          assert Drop([first], dead) == [first];
        }
      }
    }
  }

  lemma PruneOrder(b: Box, before: int, limits: Limits)
    requires InStep(b)
    ensures Prune(b, before, limits).order == Drop(b.order, DoomedIds(b, before, limits)) && InStep(Prune(b, before, limits))
  {
    var doomed := DoomedIds(b, before, limits);
    WithoutIsDrop(b.order, doomed, doomed);
    DropIs(b.order, doomed);
  }

  lemma StepKeepsInStep(b: Box, op: Op, limits: Limits)
    requires InStep(b) && Fresh(b, op)
    ensures InStep(Apply(b, op, limits))
  {
    match op {
      case Claiming(now, limit) =>
        if Throws(now, limits) {
          ThrownEffect(b.records, b.order, now, limit, limits);
        } else {
          ClaimEffect(b.records, b.order, now, limit, limits, "");
        }
      case Pruning(before) => PruneOrder(b, before, limits);
      case _ =>
    }
  }

  /** `b` is `a` without the ids in `dead`, whose records in `a` can never be handed out again. */
  ghost predicate Pruned(a: Box, b: Box, dead: set<string>, limits: Limits) {
    && b.records == a.records - dead && b.order == Drop(a.order, dead)
    && forall id :: id in a.records && id in dead ==> Spent(a.records[id], limits)
  }

  /** The same batch of both, and still only spent records between them. */
  ghost predicate OnlyDeadApart(one: Batch, two: Batch, dead: set<string>, limits: Limits) {
    && two.claimed == one.claimed && two.thrown == one.thrown && two.records == one.records - dead
    && forall id :: id in one.records && id in dead ==> Spent(one.records[id], limits)
  }

  lemma SameThrow(a: map<string, Record>, b: map<string, Record>, dead: set<string>, id: string, limits: Limits)
    requires b == a - dead && id in b && forall id :: id in a && id in dead ==> Spent(a[id], limits)
    ensures OnlyDeadApart(Batch(a[id := Wasted(a[id])], [], true), Batch(b[id := Wasted(b[id])], [], true), dead, limits)
  {
  }

  lemma SameHand(one: Batch, two: Batch, dead: set<string>, r: Record, limits: Limits)
    requires OnlyDeadApart(one, two, dead, limits)
    ensures OnlyDeadApart(Batch(one.records, [r] + one.claimed, one.thrown), Batch(two.records, [r] + two.claimed, two.thrown), dead, limits)
  {
  }

  lemma {:induction false} SameBatch(a: map<string, Record>, b: map<string, Record>, dead: set<string>, ids: seq<string>,
                                     now: int, limit: int, limits: Limits)
    requires b == a - dead && forall id :: id in a && id in dead ==> Spent(a[id], limits)
    ensures OnlyDeadApart(ClaimFrom(a, ids, now, limit, limits), ClaimFrom(b, Drop(ids, dead), now, limit, limits), dead, limits)
    decreases ids
  {
    if ids != [] {
      var id, kept := ids[0], Drop(ids[1..], dead);
      if id in dead {
        assert [] + kept == kept;
        SameBatch(a, b, dead, ids[1..], now, limit, limits);
      } else {
        assert Drop(ids, dead) == [id] + kept && ([id] + kept)[1..] == kept;
        if limit > 0 && id in a && Offered(a[id], now, limits) {
          if Throws(now, limits) {
            SameThrow(a, b, dead, id, limits);
          } else {
            var r := Handed(a[id], now, limits);
            assert b[id := r] == a[id := r] - dead;
            SameBatch(a[id := r], b[id := r], dead, ids[1..], now, limit - 1, limits);
            SameHand(ClaimFrom(a[id := r], ids[1..], now, limit - 1, limits),
                     ClaimFrom(b[id := r], kept, now, limit - 1, limits), dead, r, limits);
          }
        } else {
          SameBatch(a, b, dead, ids[1..], now, limit, limits);
        }
      }
    }
  }

  lemma PrunedPrunes(a: Box, b: Box, dead: set<string>, before: int, limits: Limits)
    requires Pruned(a, b, dead, limits)
    ensures Pruned(Prune(a, before, limits), Prune(b, before, limits), dead, limits)
  {
    var gone := DoomedIds(a, before, limits);
    assert DoomedIds(b, before, limits) == gone - dead;
    DropOfWithout(a.order, gone, dead);
    assert b.records - (gone - dead) == (a.records - gone) - dead;
  }

  lemma PrunedAdds(a: Box, b: Box, dead: set<string>, e: Entry, now: int, limits: Limits)
    requires Pruned(a, b, dead, limits) && e.id !in dead
    ensures Pruned(Enqueue(a, e, now), Enqueue(b, e, now), dead, limits)
  {
    OneMoreKept(a.order, e.id, dead);
    AddedWithout(a.records, b.records, dead, e.id, Record(e.id, e.topic, e.payload, now, e.availableAt.GetOr(now), 0, None, None));
  }

  lemma OneMoreKept(order: seq<string>, id: string, dead: set<string>)
    requires id !in dead
    ensures Drop(order + [id], dead) == Drop(order, dead) + [id]
  {
    DropConcat(order, [id], dead);
    assert Drop([id], dead) == [id] + Drop([], dead);
  }

  lemma AddedWithout(a: map<string, Record>, b: map<string, Record>, dead: set<string>, id: string, r: Record)
    requires b == a - dead && id !in dead
    ensures b[id := r] == a[id := r] - dead
  {
  }

  lemma PrunedPublishes(a: Box, b: Box, dead: set<string>, id: string, at: int, limits: Limits)
    requires Pruned(a, b, dead, limits)
    ensures Pruned(Apply(a, Publishing(id, at), limits), Apply(b, Publishing(id, at), limits), dead, limits)
  {
    assert Apply(b, Publishing(id, at), limits).records == Apply(a, Publishing(id, at), limits).records - dead;
  }

  lemma PrunedFails(a: Box, b: Box, dead: set<string>, id: string, error: string, retryAt: int, limits: Limits)
    requires Pruned(a, b, dead, limits)
    ensures Pruned(Apply(a, Failing(id, error, retryAt), limits), Apply(b, Failing(id, error, retryAt), limits), dead, limits)
  {
    assert Apply(b, Failing(id, error, retryAt), limits).records == Apply(a, Failing(id, error, retryAt), limits).records - dead;
  }

  /** The call enqueues none of these ids. */
  predicate Spares(op: Op, ids: set<string>) {
    op.Adding? ==> op.e.id !in ids
  }

  predicate AllSpare(ops: seq<Op>, ids: set<string>) {
    forall i :: 0 <= i < |ops| ==> Spares(ops[i], ids)
  }

  /** The same call on both: the same batch, and still only dead records apart. */
  lemma StepIsSame(a: Box, b: Box, dead: set<string>, op: Op, limits: Limits)
    requires Pruned(a, b, dead, limits) && Spares(op, dead)
    ensures Seen(a, op, limits) == Seen(b, op, limits)
    ensures Pruned(Apply(a, op, limits), Apply(b, op, limits), dead, limits)
  {
    match op {
      case Adding(e, now) => PrunedAdds(a, b, dead, e, now, limits);
      case Claiming(now, limit) => SameBatch(a.records, b.records, dead, a.order, now, limit, limits);
      case Publishing(id, at) => PrunedPublishes(a, b, dead, id, at, limits);
      case Failing(id, error, retryAt) => PrunedFails(a, b, dead, id, error, retryAt, limits);
      case Pruning(before) => PrunedPrunes(a, b, dead, before, limits);
    }
  }

  /** What the calls hand out, batch by batch. */
  function Batches(b: Box, ops: seq<Op>, limits: Limits): (batches: seq<Option<seq<Record>>>)
    ensures |batches| == |ops|
    decreases ops
  {
    if ops == [] then [] else [Seen(b, ops[0], limits)] + Batches(Apply(b, ops[0], limits), ops[1..], limits)
  }

  lemma {:induction false} SameBatches(a: Box, b: Box, dead: set<string>, ops: seq<Op>, limits: Limits)
    requires Pruned(a, b, dead, limits) && AllSpare(ops, dead)
    ensures Batches(a, ops, limits) == Batches(b, ops, limits)
    decreases ops
  {
    if ops != [] {
      StepIsSame(a, b, dead, ops[0], limits);
      SameBatches(Apply(a, ops[0], limits), Apply(b, ops[0], limits), dead, ops[1..], limits);
    }
  }

  /**
   Pruning is unobservable: whatever is called afterwards, every batch handed out is the one that
   would have been handed out without it, as long as no id that it dropped is enqueued again.
   */
  lemma PruneIsInvisible(b: Box, before: int, ops: seq<Op>, limits: Limits)
    requires InStep(b) && AllSpare(ops, DoomedIds(b, before, limits))
    ensures Batches(b, ops, limits) == Batches(Prune(b, before, limits), ops, limits)
  {
    PruneOrder(b, before, limits);
    SameBatches(b, Prune(b, before, limits), DoomedIds(b, before, limits), ops, limits);
  }

  /** Under fresh ids the two stay in step, from the empty store on. */
  lemma {:induction false} RunStaysInStep(states: seq<Box>, ops: seq<Op>, limits: Limits, i: nat)
    requires Run(states, ops, limits) && i < |states|
    requires forall k :: 0 <= k < i ==> Fresh(states[k], ops[k])
    ensures InStep(states[i])
  {
    if i > 0 {
      var j := i - 1;
      RunStaysInStep(states, ops, limits, j);
      assert states[j + 1] == Apply(states[j], ops[j], limits);
      StepKeepsInStep(states[j], ops[j], limits);
    }
  }

  // ------------------------------------------------------- which reuse shows a prune

  /** A batch of one is the first record on offer. */
  lemma {:induction false} FirstOnOffer(records: map<string, Record>, ids: seq<string>, k: nat, now: int, limits: Limits)
    requires k < |ids| && ids[k] in records && Offered(records[ids[k]], now, limits) && !Throws(now, limits)
    requires forall j :: 0 <= j < k ==> ids[j] !in records || !Offered(records[ids[j]], now, limits)
    ensures var b := ClaimFrom(records, ids, now, 1, limits);
            b.claimed == [Handed(records[ids[k]], now, limits)] && !b.thrown
    decreases ids
  {
    if k > 0 {
      assert forall j :: 0 <= j < k - 1 ==> ids[1..][j] == ids[j + 1];
      FirstOnOffer(records, ids[1..], k - 1, now, limits);
    }
  }

  /** What follows shows the difference: a new record, the old id again, and one claim. */
  function Telling(unused: string, id: string, now: int): seq<Op> {
    [Adding(Entry(unused, "", "", None), now), Adding(Entry(id, "", "", None), now), Claiming(now, 1)]
  }

  function TwoMore(b: Box, unused: string, id: string, now: int): Box {
    Enqueue(Enqueue(b, Entry(unused, "", "", None), now), Entry(id, "", "", None), now)
  }

  lemma TellingBatches(b: Box, unused: string, id: string, now: int, limits: Limits)
    ensures Batches(b, Telling(unused, id, now), limits)
         == [Some([]), Some([]), Claimed(TwoMore(b, unused, id, now), now, 1, limits)]
  {
    var ops := Telling(unused, id, now);
    var one := Apply(b, ops[0], limits);
    var two := Apply(one, ops[1], limits);
    assert ops[1..] == [ops[1], ops[2]] && ops[1..][1..] == [ops[2]] && [ops[2]][1..] == [];
    assert Batches(two, [ops[2]], limits) == [Seen(two, ops[2], limits)] + Batches(Apply(two, ops[2], limits), [], limits);
    assert Batches(one, ops[1..], limits) == [Some([])] + Batches(two, [ops[2]], limits);
  }

  /** Which of the two is claimed, if all before them is published: the first the order mentions. */
  lemma ClaimsFirstMention(b: Box, unused: string, id: string, now: int, limits: Limits)
    requires unused != id && unused !in b.order && limits.maxAttempts >= 1 && !Throws(now, limits)
    requires forall x :: x in b.records ==> b.records[x].publishedAt.Some?
    requires forall x :: x in b.order ==> x in b.records || x == id
    ensures var claimed := Claimed(TwoMore(b, unused, id, now), now, 1, limits);
            claimed.Some? && |claimed.value| == 1 && claimed.value[0].id == if id in b.order then id else unused
  {
    var next := TwoMore(b, unused, id, now);
    assert next.order == b.order + [unused] + [id];
    assert Offered(next.records[id], now, limits) && Offered(next.records[unused], now, limits);
    var k := if id in b.order then FirstMention(b.order, id) else |b.order|;
    assert next.order[k] == if id in b.order then id else unused;
    forall j | 0 <= j < k ensures next.order[j] !in next.records || !Offered(next.records[next.order[j]], now, limits) {
      assert next.order[j] == b.order[j] && b.order[j] in b.order && b.order[j] != id;
    }
    FirstOnOffer(next.records, next.order, k, now, limits);
  }

  function FirstMention(ids: seq<string>, id: string): (k: nat)
    requires id in ids
    ensures k < |ids| && ids[k] == id && forall j :: 0 <= j < k ==> ids[j] != id
  {
    if ids[0] == id then 0 else 1 + FirstMention(ids[1..], id)
  }

  function PublishAll(ids: seq<string>): (ops: seq<Op>)
    ensures |ops| == |ids| && forall k :: 0 <= k < |ops| ==> ops[k].Publishing?
  {
    if ids == [] then [] else [Publishing(ids[0], 0)] + PublishAll(ids[1..])
  }

  function AllPublished(b: Box, ids: seq<string>, limits: Limits): Box
    decreases ids
  {
    if ids == [] then b else AllPublished(Apply(b, Publishing(ids[0], 0), limits), ids[1..], limits)
  }

  lemma {:induction false} AllPublishedIs(b: Box, ids: seq<string>, limits: Limits)
    ensures var e := AllPublished(b, ids, limits);
            && e.order == b.order && e.records.Keys == b.records.Keys
            && forall x :: x in e.records && (x in ids || b.records[x].publishedAt.Some?) ==> e.records[x].publishedAt.Some?
    decreases ids
  {
    if ids != [] {
      AllPublishedIs(Apply(b, Publishing(ids[0], 0), limits), ids[1..], limits);
      assert forall x :: x in ids ==> x == ids[0] || x in ids[1..];
    }
  }

  /** Publishing hands out nothing; what follows goes on from there. */
  lemma {:induction false} BatchesPast(b: Box, ids: seq<string>, rest: seq<Op>, limits: Limits)
    ensures Batches(b, PublishAll(ids) + rest, limits)[|ids|..] == Batches(AllPublished(b, ids, limits), rest, limits)
    decreases ids
  {
    if ids == [] {
      assert PublishAll(ids) + rest == rest;
    } else {
      var ops := PublishAll(ids) + rest;
      var next := Apply(b, Publishing(ids[0], 0), limits);
      assert ops[1..] == PublishAll(ids[1..]) + rest;
      BatchesPast(next, ids[1..], rest, limits);
      assert Batches(b, ops, limits)[1..] == Batches(next, ops[1..], limits);
      assert Batches(b, ops, limits)[|ids|..] == Batches(b, ops, limits)[1..][|ids| - 1..];
    }
  }

  /** Calls that publish every record and then tell. */
  lemma ToldApart(b: Box, all: seq<string>, unused: string, id: string, now: int, limits: Limits)
    requires unused != id && unused !in b.order && limits.maxAttempts >= 1 && !Throws(now, limits)
    requires forall x :: x in b.records ==> x in all
    requires forall x :: x in b.order ==> x in b.records || x == id
    ensures var batches := Batches(b, PublishAll(all) + Telling(unused, id, now), limits);
            && |batches| == |all| + 3 && batches[|all| + 2].Some? && |batches[|all| + 2].value| == 1
            && batches[|all| + 2].value[0].id == if id in b.order then id else unused
  {
    var e := AllPublished(b, all, limits);
    AllPublishedIs(b, all, limits);
    BatchesPast(b, all, Telling(unused, id, now), limits);
    TellingBatches(e, unused, id, now, limits);
    ClaimsFirstMention(e, unused, id, now, limits);
    var batches := Batches(b, PublishAll(all) + Telling(unused, id, now), limits);
    assert batches[|all|..][2] == batches[|all| + 2];
  }

  lemma TellingSpares(all: seq<string>, unused: string, id: string, now: int, ids: set<string>)
    requires unused !in ids && id !in ids
    ensures AllSpare(PublishAll(all) + Telling(unused, id, now), ids)
  {
  }

  lemma PruneLacks(b: Box, before: int, id: string, limits: Limits)
    requires InStep(b) && id in DoomedIds(b, before, limits)
    ensures var pruned := Prune(b, before, limits);
            && id in b.order && id !in pruned.order && (forall x :: x in pruned.records ==> x in b.order)
            && (forall x :: x in pruned.order ==> x in b.order && x in pruned.records)
  {
    PruneOrder(b, before, limits);
    DropIs(b.order, DoomedIds(b, before, limits));
  }

  lemma DroppedIdShows(b: Box, before: int, id: string, limits: Limits) returns (ops: seq<Op>)
    requires InStep(b) && limits.maxAttempts >= 1 && id in DoomedIds(b, before, limits)
    ensures AllSpare(ops, DoomedIds(b, before, limits) - {id})
    ensures Batches(b, ops, limits) != Batches(Prune(b, before, limits), ops, limits)
  {
    var unused := UnusedString(b.records.Keys);
    var now := -limits.claimVisibilityMs;
    PruneLacks(b, before, id, limits);
    ops := PublishAll(b.order) + Telling(unused, id, now);
    TellingSpares(b.order, unused, id, now, DoomedIds(b, before, limits) - {id});
    ToldApart(b, b.order, unused, id, now, limits);
    ToldApart(Prune(b, before, limits), b.order, unused, id, now, limits);
  }

  /** These calls may reuse that id, but no other one that the prune dropped, and show the prune. */
  ghost predicate Shows(b: Box, before: int, id: string, ops: seq<Op>, limits: Limits) {
    && AllSpare(ops, DoomedIds(b, before, limits) - {id})
    && Batches(b, ops, limits) != Batches(Prune(b, before, limits), ops, limits)
  }

  /**
   Which reuse of an id shows a prune: calls that enqueue the id again can tell that there was one
   exactly if it is an id the prune dropped. (With no attempt allowed, nothing is ever handed out.)
   */
  lemma ReusedIdShowsIff(b: Box, before: int, id: string, limits: Limits)
    requires InStep(b) && limits.maxAttempts >= 1
    ensures (exists ops :: Shows(b, before, id, ops, limits)) <==> id in DoomedIds(b, before, limits)
  {
    var doomed := DoomedIds(b, before, limits);
    if id in doomed {
      var ops := DroppedIdShows(b, before, id, limits);
      assert Shows(b, before, id, ops, limits);
    } else {
      assert doomed - {id} == doomed;
      forall ops ensures !Shows(b, before, id, ops, limits) {
        if AllSpare(ops, doomed) {
          PruneIsInvisible(b, before, ops, limits);
        }
      }
    }
  }
}
