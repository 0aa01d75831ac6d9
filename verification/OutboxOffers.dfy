/** What the outbox hands out, to whom it must and when, and what it forgets: told from the records' fields. */
module OutboxOffers {
  import opened Wrappers
  import opened Outbox
  import opened OutboxRuns

  /** Not published, with attempts left, and due. */
  predicate OnOffer(r: Record, now: int, limits: Limits) {
    r.publishedAt == None && r.attempts < limits.maxAttempts && r.availableAt <= now
  }

  /** How many of the first `k` records of the list are on offer. */
  function Ahead(records: map<string, Record>, ids: seq<string>, k: nat, now: int, limits: Limits): nat
    requires k <= |ids|
  {
    if k == 0 then 0
    else Ahead(records, ids, k - 1, now, limits)
         + if ids[k - 1] in records && OnOffer(records[ids[k - 1]], now, limits) then 1 else 0
  }

  lemma {:induction false} AheadFromFirst(records: map<string, Record>, ids: seq<string>, k: nat, now: int, limits: Limits)
    requires 0 < k <= |ids|
    ensures Ahead(records, ids, k, now, limits)
            == Ahead(records, ids[1..], k - 1, now, limits)
               + if ids[0] in records && OnOffer(records[ids[0]], now, limits) then 1 else 0
  {
    if k > 1 {
      AheadFromFirst(records, ids, k - 1, now, limits);
      assert ids[1..][k - 2] == ids[k - 1];
    }
  }

  lemma {:induction false} AheadSame(a: map<string, Record>, b: map<string, Record>, ids: seq<string>, k: nat, now: int, limits: Limits)
    requires k <= |ids| && forall id :: id in ids ==> (id in a <==> id in b) && (id in a ==> a[id] == b[id])
    ensures Ahead(a, ids, k, now, limits) == Ahead(b, ids, k, now, limits)
  {
    if k > 0 {
      AheadSame(a, b, ids, k - 1, now, limits);
      assert ids[k - 1] in ids;
    }
  }

  /** The record of that id as a claim hands it out. */
  function HandedOut(r: Record, now: int, limits: Limits): Record {
    Record(r.id, r.topic, r.payload, r.createdAt, now + limits.claimVisibilityMs, r.attempts + 1, r.publishedAt, r.lastError)
  }

  lemma Apart(ids: seq<string>, k: nat)
    requires Distinct(ids) && 0 < k < |ids|
    ensures Distinct(ids[1..]) && ids[0] !in ids[1..] && ids[k] == ids[1..][k - 1] && ids[k] != ids[0]
  {
  }

  /** A batch holds exactly the records on offer that have fewer than `limit` others on offer before them;
      each is handed out as it was, counted once more and out of sight for the window. */
  lemma {:induction false} ClaimedIff(records: map<string, Record>, ids: seq<string>, now: int, limit: int, limits: Limits, k: nat)
    requires Keyed(records) && Distinct(ids) && !Throws(now, limits) && k < |ids|
    ensures var claimed := ClaimFrom(records, ids, now, limit, limits).claimed;
            if ids[k] in records && OnOffer(records[ids[k]], now, limits) && Ahead(records, ids, k, now, limits) < limit
            then HandedOut(records[ids[k]], now, limits) in claimed
            else Times(claimed, ids[k]) == 0
    decreases ids
  {
    var id := ids[0];
    var offered := id in records && OnOffer(records[id], now, limits);
    if limit > 0 {
      var left := if offered then limit - 1 else limit;
      var next := if offered then records[id := Handed(records[id], now, limits)] else records;
      if k > 0 {
        Apart(ids, k);
        AheadFromFirst(records, ids, k, now, limits);
        AheadSame(records, next, ids[1..], k - 1, now, limits);
        ClaimedIff(next, ids[1..], now, left, limits, k - 1);
      } else if |ids| > 1 {
        Apart(ids, 1);
      }
      FirstOf(records, ids, now, limit, limits);
      ClaimedAreListed(next, ids[1..], now, left, limits, id);
    }
  }

  lemma FirstOf(records: map<string, Record>, ids: seq<string>, now: int, limit: int, limits: Limits)
    requires Keyed(records) && ids != [] && limit > 0 && !Throws(now, limits)
    ensures var claimed := ClaimFrom(records, ids, now, limit, limits).claimed;
            if ids[0] in records && OnOffer(records[ids[0]], now, limits) then
              var r := HandedOut(records[ids[0]], now, limits);
              var later := ClaimFrom(records[ids[0] := r], ids[1..], now, limit - 1, limits).claimed;
              claimed == [r] + later && (forall id :: Times(claimed, id) == Times(later, id) + if id == ids[0] then 1 else 0)
            else claimed == ClaimFrom(records, ids[1..], now, limit, limits).claimed
  {
    if ids[0] in records && OnOffer(records[ids[0]], now, limits) {
      var r := HandedOut(records[ids[0]], now, limits);
      var later := ClaimFrom(records[ids[0] := r], ids[1..], now, limit - 1, limits).claimed;
      assert ([r] + later)[1..] == later;
    }
  }

  // ------------------------------------------------------------- from one call to the next

  /** A new record is on offer from the instant it was given, or at once. */
  lemma OfferedOnceEnqueued(b: Box, e: Entry, now: int, t: int, limits: Limits)
    ensures var next := Enqueue(b, e, now);
            && e.id in next.records && next.order == b.order + [e.id]
            && next.records[e.id].topic == e.topic && next.records[e.id].payload == e.payload && next.records[e.id].createdAt == now
            && (OnOffer(next.records[e.id], t, limits) <==>
                  limits.maxAttempts > 0 && t >= if e.availableAt.Some? then e.availableAt.value else now)
            && forall id :: id != e.id ==> (id in next.records <==> id in b.records) && (id in b.records ==> next.records[id] == b.records[id])
  {
  }

  /** A record whose publishing failed keeps why, and is on offer again from the instant named; one that was
      published never is. Of a record that is not there neither is taken. */
  lemma OfferedAfterFailure(b: Box, id: string, error: string, at: int, t: int, limits: Limits)
    ensures MarkFailed(b, id, error, at) == Err(NotFound) <==> id !in b.records
    ensures MarkPublished(b, id, at) == Err(NotFound) <==> id !in b.records
    ensures id in b.records ==>
              var failed, published := MarkFailed(b, id, error, at), MarkPublished(b, id, at);
              && failed.Ok? && published.Ok? && id in failed.value.records && id in published.value.records
              && failed.value.records[id].lastError == Some(error) && published.value.records[id].publishedAt == Some(at)
              && (OnOffer(failed.value.records[id], t, limits) <==>
                    b.records[id].publishedAt == None && b.records[id].attempts < limits.maxAttempts && at <= t)
              && !OnOffer(published.value.records[id], t, limits)
  {
  }

  /** A prune drops exactly the records published before the instant, and the unpublished ones created before
      it that have used their attempts up; the others stay as they are, in their order. */
  lemma PruneDropsIff(b: Box, before: int, limits: Limits, id: string)
    requires id in b.records
    ensures var next, r := Prune(b, before, limits), b.records[id];
            && (id !in next.records <==>
                  if r.publishedAt.Some? then r.publishedAt.value < before
                  else r.attempts >= limits.maxAttempts && r.createdAt < before)
            && (id in next.records ==> next.records[id] == r)
  {
  }

  // --------------------------------------------------------------------- whole runs

  /** The last call that enqueued the id, of the first `n`. */
  function Enqueued(ops: seq<Op>, id: string, n: nat): Option<Entry>
    requires n <= |ops|
  {
    if n == 0 then None
    else if ops[n - 1].Adding? && ops[n - 1].e.id == id then Some(ops[n - 1].e)
    else Enqueued(ops, id, n - 1)
  }

  predicate Carries(r: Record, e: Option<Entry>) {
    e.Some? && r.topic == e.value.topic && r.payload == e.value.payload
  }

  lemma {:induction false} ClaimKeepsContent(records: map<string, Record>, ids: seq<string>, now: int, limit: int, limits: Limits)
    requires Keyed(records)
    ensures var b := ClaimFrom(records, ids, now, limit, limits);
            && b.records.Keys == records.Keys && Keyed(b.records)
            && (forall id :: id in records ==> b.records[id].topic == records[id].topic && b.records[id].payload == records[id].payload)
            && (forall r :: r in b.claimed ==> r.id in records && r.topic == records[r.id].topic && r.payload == records[r.id].payload)
    decreases ids
  {
    if ids != [] && limit > 0 && ids[0] in records && Offered(records[ids[0]], now, limits) && !Throws(now, limits) {
      ClaimKeepsContent(records[ids[0] := Handed(records[ids[0]], now, limits)], ids[1..], now, limit - 1, limits);
    } else if ids != [] && limit > 0 && !(ids[0] in records && Offered(records[ids[0]], now, limits)) {
      ClaimKeepsContent(records, ids[1..], now, limit, limits);
    }
  }

  /** What is kept of a record is what its last enqueueing gave. */
  lemma {:induction false} ContentStays(states: seq<Box>, ops: seq<Op>, limits: Limits, n: nat)
    requires Run(states, ops, limits) && n <= |ops|
    ensures forall id :: id in states[n].records ==> Carries(states[n].records[id], Enqueued(ops, id, n))
  {
    if n > 0 {
      var m := n - 1;
      ContentStays(states, ops, limits, m);
      RunKeepsKeys(states, ops, limits, m);
      assert states[m + 1] == Apply(states[m], ops[m], limits);
      if ops[m].Claiming? {
        ClaimKeepsContent(states[m].records, states[m].order, ops[m].now, ops[m].limit, limits);
      }
    }
  }

  /** Over every run, what is handed out under an id is what was enqueued under it last. */
  lemma HandedOutAsEnqueued(states: seq<Box>, ops: seq<Op>, limits: Limits, n: nat, r: Record)
    requires Run(states, ops, limits) && n < |ops| && r in Given(states[n], ops[n], limits)
    ensures Carries(r, Enqueued(ops, r.id, n))
  {
    ContentStays(states, ops, limits, n);
    RunKeepsKeys(states, ops, limits, n);
    ClaimKeepsContent(states[n].records, states[n].order, ops[n].now, ops[n].limit, limits);
  }
}
