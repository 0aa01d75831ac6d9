/**
 The outbox: records waiting to be published, handed out in batches, at most so many times each.

 Times are milliseconds. The map is read by id, the order list by enqueueing.
 */
module Outbox {
  import opened Wrappers
  import TaskModel

  datatype Record = Record(id: string, topic: string, payload: string, createdAt: int, availableAt: int,
                           attempts: nat, publishedAt: Option<int>, lastError: Option<string>)

  datatype Limits = Limits(claimVisibilityMs: int, maxAttempts: int)

  datatype Box = Box(records: map<string, Record>, order: seq<string>)

  const EMPTY_BOX := Box(map[], [])

  datatype Error = NotFound | InvalidDate

  // ------------------------------------------------------------------------ calls

  datatype Entry = Entry(id: string, topic: string, payload: string, availableAt: Option<int>)

  function Enqueue(b: Box, e: Entry, now: int): Box {
    Box(b.records[e.id := Record(e.id, e.topic, e.payload, now, e.availableAt.GetOr(now), 0, None, None)], b.order + [e.id])
  }

  predicate Spent(r: Record, limits: Limits) {
    r.publishedAt.Some? || r.attempts >= limits.maxAttempts
  }

  predicate Offered(r: Record, now: int, limits: Limits) {
    !Spent(r, limits) && r.availableAt <= now
  }

  /** One hand-out: an attempt spent, and out of sight for the visibility window. */
  function Handed(r: Record, now: int, limits: Limits): Record {
    r.(attempts := r.attempts + 1, availableAt := now + limits.claimVisibilityMs)
  }

  /** The end of the window is no date: a claim throws when it comes to write it. */
  predicate Throws(now: int, limits: Limits) {
    !TaskModel.HasIsoForm(now + limits.claimVisibilityMs)
  }

  datatype Batch = Batch(records: map<string, Record>, claimed: seq<Record>, thrown: bool)

  /** The first record on offer is counted before its window is written, so a claim that throws leaves
      that one attempt spent. */
  function ClaimFrom(records: map<string, Record>, ids: seq<string>, now: int, limit: int, limits: Limits): Batch
    decreases ids
  {
    if ids == [] || limit <= 0 then Batch(records, [], false)
    else if ids[0] !in records || !Offered(records[ids[0]], now, limits) then ClaimFrom(records, ids[1..], now, limit, limits)
    else if Throws(now, limits) then Batch(records[ids[0] := Wasted(records[ids[0]])], [], true)
    else
      var r := Handed(records[ids[0]], now, limits);
      var later := ClaimFrom(records[ids[0] := r], ids[1..], now, limit - 1, limits);
      Batch(later.records, [r] + later.claimed, later.thrown)
  }

  function Wasted(r: Record): Record {
    r.(attempts := r.attempts + 1)
  }

  function ClaimBatch(b: Box, now: int, limit: int, limits: Limits): (Box, Result<seq<Record>, Error>) {
    var batch := ClaimFrom(b.records, b.order, now, limit, limits);
    (b.(records := batch.records), if batch.thrown then Err(InvalidDate) else Ok(batch.claimed))
  }

  function MarkPublished(b: Box, id: string, at: int): Result<Box, Error> {
    if id !in b.records then Err(NotFound)
    else Ok(b.(records := b.records[id := b.records[id].(publishedAt := Some(at))]))
  }

  function MarkFailed(b: Box, id: string, error: string, retryAt: int): Result<Box, Error> {
    if id !in b.records then Err(NotFound)
    else Ok(b.(records := b.records[id := b.records[id].(lastError := Some(error), availableAt := retryAt)]))
  }

  predicate Doomed(r: Record, before: int, limits: Limits) {
    if r.publishedAt.Some? then r.publishedAt.value < before
    else r.attempts >= limits.maxAttempts && r.createdAt < before
  }

  /** The order without the first mention of each of the ids. */
  function Without(order: seq<string>, ids: set<string>): seq<string> {
    if order == [] then []
    else if order[0] in ids then Without(order[1..], ids - {order[0]})
    else [order[0]] + Without(order[1..], ids)
  }

  function DoomedIds(b: Box, before: int, limits: Limits): set<string> {
    set id | id in b.records && Doomed(b.records[id], before, limits)
  }

  function Prune(b: Box, before: int, limits: Limits): Box {
    var doomed := DoomedIds(b, before, limits);
    Box(b.records - doomed, Without(b.order, doomed))
  }

  // ------------------------------------------------------------------------- class

  function DropFirst(order: seq<string>, id: string): seq<string> {
    if order == [] then [] else if order[0] == id then order[1..] else [order[0]] + DropFirst(order[1..], id)
  }

  lemma {:induction false} WithoutDropped(order: seq<string>, id: string, ids: set<string>)
    requires id in ids
    ensures Without(order, ids) == Without(DropFirst(order, id), ids - {id})
  {
    if order != [] && order[0] != id {
      var rest := if order[0] in ids then ids - {order[0]} else ids;
      WithoutDropped(order[1..], id, rest);
      var dropped := DropFirst(order, id);
      assert dropped[1..] == DropFirst(order[1..], id);
      assert rest - {id} == if order[0] in ids then (ids - {id}) - {order[0]} else ids - {id};
    }
  }

  lemma {:induction false} WithoutNone(order: seq<string>)
    ensures Without(order, {}) == order
  {
    if order != [] {
      WithoutNone(order[1..]);
    }
  }

  class MemoryOutboxStore {
    var records: map<string, Record>
    var order: seq<string>
    const limits: Limits

    function View(): Box
      reads this
    {
      Box(records, order)
    }

    constructor (limits: Limits)
      ensures View() == EMPTY_BOX && this.limits == limits
    {
      this.limits := limits;
      records, order := map[], [];
    }

    method Add(e: Entry, now: int) returns (r: Record)
      modifies this
      ensures View() == Enqueue(old(View()), e, now) && r == records[e.id]
    {
      r := Record(e.id, e.topic, e.payload, now, e.availableAt.GetOr(now), 0, None, None);
      records := records[r.id := r];
      order := order + [r.id];
    }

    method Claim(now: int, limit: int) returns (outcome: Result<seq<Record>, Error>)
      modifies this
      ensures (View(), outcome) == ClaimBatch(old(View()), now, limit, limits)
    {
      var claimed := [];
      assert order[0..] == order;
      for i := 0 to |order|
        invariant order == old(order)
        invariant var later := ClaimFrom(records, order[i..], now, limit - |claimed|, limits);
                  ClaimFrom(old(records), order, now, limit, limits)
                  == Batch(later.records, claimed + later.claimed, later.thrown)
      {
        assert order[i..][1..] == order[i + 1..];
        if |claimed| >= limit { break; }
        var id := order[i];
        if id !in records { continue; }
        var record := records[id];
        if record.publishedAt.Some? { continue; }
        if record.attempts >= limits.maxAttempts { continue; }
        if record.availableAt > now { continue; }
        record := record.(attempts := record.attempts + 1);
        if !TaskModel.HasIsoForm(now + limits.claimVisibilityMs) {
          records := records[id := record];
          return Err(InvalidDate);
        }
        record := record.(availableAt := now + limits.claimVisibilityMs);
        ghost var later := ClaimFrom(records[id := record], order[i + 1..], now, limit - |claimed| - 1, limits);
        assert claimed + ([record] + later.claimed) == (claimed + [record]) + later.claimed;
        records := records[id := record];
        claimed := claimed + [record];
      }
      assert claimed + [] == claimed;
      return Ok(claimed);
    }

    method Published(id: string, at: int) returns (outcome: Result<(), Error>)
      modifies this
      ensures match MarkPublished(old(View()), id, at)
              case Err(e) => outcome == Err(e) && View() == old(View())
              case Ok(b) => outcome == Ok(()) && View() == b
    {
      if id !in records { return Err(NotFound); }
      records := records[id := records[id].(publishedAt := Some(at))];
      return Ok(());
    }

    method Failed(id: string, error: string, retryAt: int) returns (outcome: Result<(), Error>)
      modifies this
      ensures match MarkFailed(old(View()), id, error, retryAt)
              case Err(e) => outcome == Err(e) && View() == old(View())
              case Ok(b) => outcome == Ok(()) && View() == b
    {
      if id !in records { return Err(NotFound); }
      var record := records[id].(lastError := Some(error));
      record := record.(availableAt := retryAt);
      records := records[id := record];
      return Ok(());
    }

    method PruneOld(before: int) returns (dropped: nat)
      modifies this
      ensures View() == Prune(old(View()), before, limits)
      ensures dropped == |DoomedIds(old(View()), before, limits)|
    {
      var doomed := set id | id in records && Doomed(records[id], before, limits);
      dropped := |doomed|;
      var left := doomed;
      while left != {}
        invariant left <= doomed
        invariant records == old(records) - (doomed - left)
        invariant Without(old(order), doomed) == Without(order, left)
        decreases left
      {
        var id :| id in left;
        WithoutDropped(order, id, left);
        left := left - {id};
        records := records - {id};
        order := DropFirst(order, id);
      }
      WithoutNone(order);
    }
  }
}
