/** What reconciling leaves of all records and sessions when nothing fails and nothing comes in between. */
module ConnectionReconcile {
  import opened Wrappers
  import opened ConnectionLife
  import opened ConnectionOutcomes
  import ToolIdentity

  // ------------------------------------------------------------------ sessions that are stale

  /** Its record is gone or disabled, or is no longer the one it was made for. */
  predicate Stale(l: Life, id: string)
    requires id in l.managers
  {
    id !in l.store || !l.store[id].config.enabled || l.managers[id].mark != MarkOf(l.store[id])
  }

  function Cleared(l: Life, ids: seq<string>): Life {
    l.(managers := map id | id in l.managers && !(id in ids && Stale(l, id)) :: l.managers[id])
  }

  lemma {:induction false} OneStale(l: Life, id: string, rest: seq<Work>, ch: Choice)
    requires ch.ok
    ensures Advance(Doing(l, [DropIfStale(id, Lookup(l.store, id))] + rest), ch) == Doing(Cleared(l, [id]), rest)
  {
    var w := DropIfStale(id, Lookup(l.store, id));
    Next([w] + rest, w, rest);
    assert id in l.managers && Stale(l, id) ==> Cleared(l, [id]).managers == l.managers - {id};
    assert !(id in l.managers && Stale(l, id)) ==> Cleared(l, [id]).managers == l.managers;
  }

  lemma ClearedMore(l: Life, ids: seq<string>, k: nat)
    requires k < |ids|
    ensures Cleared(Cleared(l, ids[..k]), [ids[k]]) == Cleared(l, ids[..k + 1])
  {
    var a, b := Cleared(Cleared(l, ids[..k]), [ids[k]]), Cleared(l, ids[..k + 1]);
    assert forall x :: x in ids[..k + 1] <==> x in ids[..k] || x == ids[k];
    assert a.managers == b.managers;
  }

  /** What a call comes to, told from one of its awaits. */
  type Telling = nat -> Life

  ghost predicate TellsAlike(f: Telling, i: nat) {
    f(i) == f(i + 1)
  }

  lemma {:induction false} AllTellAlike(f: Telling, n: nat)
    requires forall i: nat :: i < n ==> TellsAlike(f, i)
    ensures f(0) == f(n)
  {
    if n > 0 {
      assert TellsAlike(f, n - 1);
      AllTellAlike(f, n - 1);
    }
  }

  /** The call from its await before the i-th session is looked at. */
  function FromClearing(l: Life, ids: seq<string>, rest: seq<Work>, chs: seq<Choice>, k: nat, i: nat): Life {
    if i <= |ids| && k + i <= |chs| then Advances(Doing(Cleared(l, ids[..i]), DropsFor(l, ids[i..]) + rest), chs[k + i..]) else l
  }

  lemma {:induction false} ClearsOne(l: Life, ids: seq<string>, rest: seq<Work>, chs: seq<Choice>, k: nat, i: nat)
    requires AllWell(chs) && k + |ids| <= |chs| && i < |ids|
    ensures FromClearing(l, ids, rest, chs, k, i) == FromClearing(l, ids, rest, chs, k, i + 1)
  {
    var now, after := Cleared(l, ids[..i]), DropsFor(l, ids[i + 1..]) + rest;
    assert DropsFor(l, ids[i..]) == [DropIfStale(ids[i], Lookup(l.store, ids[i]))] + DropsFor(l, ids[i + 1..]);
    assert DropsFor(l, ids[i..]) + rest == [DropIfStale(ids[i], Lookup(now.store, ids[i]))] + after;
    OneStale(now, ids[i], after, chs[k + i]);
    ClearedMore(l, ids, i);
    On(Doing(now, DropsFor(l, ids[i..]) + rest), chs, k + i, Doing(Cleared(l, ids[..i + 1]), after));
  }

  lemma ClearsAll(l: Life, ids: seq<string>, rest: seq<Work>, chs: seq<Choice>, k: nat)
    requires AllWell(chs) && k + |ids| <= |chs|
    ensures Advances(Doing(l, DropsFor(l, ids) + rest), chs[k..]) == Advances(Doing(Cleared(l, ids), rest), chs[k + |ids|..])
  {
    var f: Telling := (i: nat) => FromClearing(l, ids, rest, chs, k, i);
    forall i: nat | i < |ids| ensures TellsAlike(f, i) {
      ClearsOne(l, ids, rest, chs, k, i);
    }
    AllTellAlike(f, |ids|);
    StartAndEnd(l, ids, rest);
  }

  lemma StartAndEnd(l: Life, ids: seq<string>, rest: seq<Work>)
    ensures Cleared(l, ids[..0]) == l && DropsFor(l, ids[0..]) == DropsFor(l, ids)
    ensures Cleared(l, ids[..|ids|]) == Cleared(l, ids) && DropsFor(l, ids[|ids|..]) + rest == rest
  {
    assert ids[..0] == [] && ids[0..] == ids && ids[..|ids|] == ids && ids[|ids|..] == [];
    assert Cleared(l, []).managers == l.managers;
  }

  // --------------------------------------------------------------------- records to connect

  predicate Wanted(rec: Rec) {
    rec.config.enabled && rec.status != Disconnected
  }

  /** Connecting a record with more to do after it. */
  lemma {:induction false} ConnectOn(l: Life, rec: Rec, rest: seq<Work>, chs: seq<Choice>, k: nat) returns (next: nat)
    requires Keyed(l.store) && RevisionOf(l.store, rec.id) == Some(rec.revision) && MayConnect(l, rec)
    requires AllWell(chs) && k + 6 <= |chs|
    ensures next <= k + 6
    ensures Advances(Doing(l, [ConnectList(rec)] + rest), chs[k..])
            == Advances(Doing(AfterConnect(l, rec, chs[k + 1].connected), rest), chs[next..])
  {
    var w := Doing(l, [ConnectList(rec)] + rest);
    var w1 := Advance(w, chs[k]);
    On(w, chs, k, w1);
    Checks(l, rec, rest, chs[k], chs[k + 1]);
    On(w1, chs, k + 1, Advance(w1, chs[k + 1]));
    if KeepsSession(l, rec, chs[k + 1].connected) {
      next := k + 2;
    } else {
      ConnectsAnew(l.(managers := l.managers - {rec.id}), rec, rest, chs, k + 2);
      AnewOverDropped(l, rec);
      next := k + 6;
    }
  }

  lemma {:induction false} Considers(l: Life, rec: Rec, rest: seq<Work>, ch: Choice)
    requires ch.ok
    ensures Advance(Doing(l, [ReconcileOne(rec)] + rest), ch) == Doing(l, if Wanted(rec) then [ConnectList(rec)] + rest else rest)
  {
    Next([ReconcileOne(rec)] + rest, ReconcileOne(rec), rest);
    assert [] + rest == rest;
  }

  lemma {:induction false} Considered(l: Life, rec: Rec, rest: seq<Work>, chs: seq<Choice>, k: nat)
    requires AllWell(chs) && k < |chs|
    ensures Advances(Doing(l, [ReconcileOne(rec)] + rest), chs[k..])
            == Advances(Doing(l, if Wanted(rec) then [ConnectList(rec)] + rest else rest), chs[k + 1..])
  {
    Considers(l, rec, rest, chs[k]);
    On(Doing(l, [ReconcileOne(rec)] + rest), chs, k, Doing(l, if Wanted(rec) then [ConnectList(rec)] + rest else rest));
  }

  /** One record of the list: connected if it is wanted. */
  lemma {:induction false} OneOn(l: Life, rec: Rec, rest: seq<Work>, chs: seq<Choice>, k: nat) returns (e: Life, next: nat)
    requires Keyed(l.store) && rec.id in l.store && l.store[rec.id] == rec && (Wanted(rec) ==> MayConnect(l, rec))
    requires AllWell(chs) && k + 7 <= |chs|
    ensures next <= k + 7 && (e == if Wanted(rec) then AfterConnect(l, rec, chs[k + 2].connected) else l)
    ensures Advances(Doing(l, [ReconcileOne(rec)] + rest), chs[k..]) == Advances(Doing(e, rest), chs[next..])
  {
    Considered(l, rec, rest, chs, k);
    if Wanted(rec) {
      next := ConnectOn(l, rec, rest, chs, k + 1);
      e := AfterConnect(l, rec, chs[k + 2].connected);
    } else {
      e, next := l, k + 1;
    }
  }

  /** No two records go by the same alias. */
  predicate AliasesApart(store: map<string, Rec>) {
    forall x, y :: x in store && y in store && x != y ==>
      ToolIdentity.Trim(store[x].config.serverAlias) != ToolIdentity.Trim(store[y].config.serverAlias)
  }

  /** A wanted record has a session of its own, kept or new; any other record keeps what it has. */
  predicate Settled(l: Life, e: Life, id: string)
    requires id in l.store && id in e.store
  {
    var rec := l.store[id];
    if Wanted(rec) then
      && id in e.managers && e.managers[id].mark == MarkOf(rec)
      && ((e.store[id] == rec && id in l.managers && e.managers[id] == l.managers[id]) || e.store[id] == rec.(status := Connected))
    else Same(l, e, id)
  }

  predicate Same(l: Life, e: Life, id: string) {
    && (id in e.store <==> id in l.store) && (id in l.store ==> e.store[id] == l.store[id])
    && (id in e.managers <==> id in l.managers) && (id in l.managers ==> e.managers[id] == l.managers[id])
  }

  lemma ConnectedIs(l: Life, rec: Rec, saysConnected: bool)
    requires rec.id in l.store && l.store[rec.id] == rec && Wanted(rec) && MayConnect(l, rec)
    ensures var e := AfterConnect(l, rec, saysConnected);
            Settled(l, e, rec.id) && forall x :: x != rec.id ==> Same(l, e, x)
  {
  }

  lemma ConnectedKeeps(l: Life, rec: Rec, saysConnected: bool)
    requires Keyed(l.store) && AliasesApart(l.store) && rec.id in l.store && l.store[rec.id] == rec
    ensures var e := AfterConnect(l, rec, saysConnected);
            Keyed(e.store) && AliasesApart(e.store) && e.store.Keys == l.store.Keys && e.waiting == l.waiting && e.disposed == l.disposed
  {
  }

  lemma MayBeConnected(l: Life, rec: Rec)
    requires AliasesApart(l.store) && rec.id in l.store && l.store[rec.id] == rec && rec.config.enabled
    ensures MayConnect(l, rec)
  {
  }

  /** The records are still as they were listed, each listed once. */
  predicate AsListed(l: Life, recs: seq<Rec>) {
    && (forall i :: 0 <= i < |recs| ==> recs[i].id in l.store && l.store[recs[i].id] == recs[i])
    && forall i, j :: 0 <= i < j < |recs| ==> recs[i].id != recs[j].id
  }

  predicate Listed(recs: seq<Rec>, id: string) {
    exists i :: 0 <= i < |recs| && recs[i].id == id
  }

  ghost predicate AllSettled(l: Life, e: Life, recs: seq<Rec>) {
    && e.store.Keys == l.store.Keys && e.waiting == l.waiting && e.disposed == l.disposed
    && (forall i :: 0 <= i < |recs| ==> recs[i].id in l.store && recs[i].id in e.store && Settled(l, e, recs[i].id))
    && forall x {:trigger Same(l, e, x)} :: !Listed(recs, x) ==> Same(l, e, x)
  }

  lemma StillListed(l: Life, mid: Life, recs: seq<Rec>)
    requires recs != [] && AsListed(l, recs) && forall x :: x != recs[0].id ==> Same(l, mid, x)
    ensures AsListed(mid, recs[1..])
  {
    forall i | 0 <= i < |recs[1..]| ensures recs[1..][i].id in mid.store && mid.store[recs[1..][i].id] == recs[1..][i] {
      assert Same(l, mid, recs[i + 1].id);
    }
  }

  /** One record of the list is dealt with, and nothing else has changed. */
  ghost predicate FirstDone(l: Life, mid: Life, recs: seq<Rec>)
    requires recs != []
  {
    && Keyed(mid.store) && AliasesApart(mid.store) && AsListed(mid, recs[1..])
    && mid.store.Keys == l.store.Keys && mid.waiting == l.waiting && mid.disposed == l.disposed
    && recs[0].id in l.store && recs[0].id in mid.store
    && Settled(l, mid, recs[0].id) && forall x {:trigger Same(l, mid, x)} :: x != recs[0].id ==> Same(l, mid, x)
  }

  lemma {:induction false} FirstIsDone(l: Life, recs: seq<Rec>, saysConnected: bool)
    requires Keyed(l.store) && AliasesApart(l.store) && recs != [] && AsListed(l, recs)
    ensures Wanted(recs[0]) ==> MayConnect(l, recs[0])
    ensures FirstDone(l, if Wanted(recs[0]) then AfterConnect(l, recs[0], saysConnected) else l, recs)
  {
    var rec := recs[0];
    var mid := if Wanted(rec) then AfterConnect(l, rec, saysConnected) else l;
    if Wanted(rec) {
      MayBeConnected(l, rec);
      ConnectedIs(l, rec, saysConnected);
      ConnectedKeeps(l, rec, saysConnected);
    }
    StillListed(l, mid, recs);
  }

  lemma {:induction false} FirstOn(l: Life, recs: seq<Rec>, chs: seq<Choice>, k: nat) returns (mid: Life, next: nat)
    requires Keyed(l.store) && AliasesApart(l.store) && recs != [] && AsListed(l, recs)
    requires AllWell(chs) && k + 7 <= |chs|
    ensures next <= k + 7 && FirstDone(l, mid, recs)
    ensures Advances(Doing(l, OnesFor(recs)), chs[k..]) == Advances(Doing(mid, OnesFor(recs[1..])), chs[next..])
  {
    FirstIsDone(l, recs, chs[k + 2].connected);
    assert OnesFor(recs) == [ReconcileOne(recs[0])] + OnesFor(recs[1..]);
    mid, next := OneOn(l, recs[0], OnesFor(recs[1..]), chs, k);
  }

  lemma SettledOn(l: Life, mid: Life, e: Life, recs: seq<Rec>)
    requires recs != [] && AsListed(l, recs) && FirstDone(l, mid, recs)
    requires AllSettled(mid, e, recs[1..])
    ensures AllSettled(l, e, recs)
  {
    var id := recs[0].id;
    assert !Listed(recs[1..], id);
    assert Same(mid, e, id);
    forall i | 0 < i < |recs| ensures Settled(l, e, recs[i].id) {
      assert recs[1..][i - 1] == recs[i];
      assert Same(l, mid, recs[i].id);
    }
    forall x | !Listed(recs, x) ensures Same(l, e, x) {
      assert recs[0].id != x;
      assert forall i :: 0 <= i < |recs[1..]| ==> recs[1..][i] == recs[i + 1];
      assert !Listed(recs[1..], x);
      assert Same(mid, e, x) && Same(l, mid, x);
    }
  }

  lemma {:induction false} ConnectsAll(l: Life, recs: seq<Rec>, chs: seq<Choice>, k: nat) returns (e: Life)
    requires Keyed(l.store) && AliasesApart(l.store) && AsListed(l, recs)
    requires AllWell(chs) && k + 7 * |recs| <= |chs|
    ensures Advances(Doing(l, OnesFor(recs)), chs[k..]) == Doing(e, [])
    ensures AllSettled(l, e, recs)
    decreases |recs|
  {
    if recs == [] {
      e := l;
      assert OnesFor(recs) == [];
      NothingToDo(Doing(l, []), chs[k..]);
    } else {
      var mid, next := FirstOn(l, recs, chs, k);
      e := ConnectsAll(mid, recs[1..], chs, next);
      SettledOn(l, mid, e, recs);
    }
  }

  lemma SettledDoing(l: Life, e: Life, recs: seq<Rec>)
    requires AllSettled(l, e, recs)
    ensures AllSettled(l, Doing(e, []), recs)
  {
    var d := Doing(e, []);
    forall x | !Listed(recs, x) ensures Same(l, d, x) {
      assert Same(l, e, x);
    }
    forall i | 0 <= i < |recs| ensures Settled(l, d, recs[i].id) {
      assert Settled(l, e, recs[i].id);
    }
  }

  // ------------------------------------------------------------------------ the whole call

  /** What is left of a record and its session. */
  predicate Reconciled(l: Life, e: Life, id: string)
    requires id in l.store
  {
    var rec := l.store[id];
    id in e.store &&
    if Wanted(rec) then
      && id in e.managers && e.managers[id].mark == MarkOf(rec)
      && ((e.store[id] == rec && id in l.managers && e.managers[id] == l.managers[id]) || e.store[id] == rec.(status := Connected))
    else
      && e.store[id] == rec
      && (id in e.managers <==> id in l.managers && !Stale(l, id)) && (id in e.managers ==> e.managers[id] == l.managers[id])
  }

  lemma ListedIsStored(l: Life, recs: seq<Rec>, id: string)
    requires (set r | r in recs) == l.store.Values && Keyed(l.store) && Listed(recs, id)
    ensures id in l.store
  {
    var i :| 0 <= i < |recs| && recs[i].id == id;
    assert recs[i] in (set r | r in recs);
    assert recs[i] in l.store.Values;
  }

  lemma ClearedThenSettled(l: Life, e: Life, ids: seq<string>, recs: seq<Rec>)
    requires (set id | id in ids) == l.managers.Keys && (set r | r in recs) == l.store.Values
    requires Keyed(l.store) && AllSettled(Cleared(l, ids), e, recs)
    ensures forall id :: id in l.store ==> Reconciled(l, e, id)
    ensures forall id :: id in e.managers ==> id in l.store
  {
    var mid := Cleared(l, ids);
    assert forall id :: id in l.managers ==> id in ids;
    forall id | id in l.store ensures Reconciled(l, e, id) {
      assert l.store[id] in l.store.Values;
      var i :| 0 <= i < |recs| && recs[i] == l.store[id];
      assert Settled(mid, e, recs[i].id);
    }
    forall id | id in e.managers ensures id in l.store {
      if Listed(recs, id) {
        ListedIsStored(l, recs, id);
      } else {
        assert Same(mid, e, id);
      }
    }
  }

  lemma ListedOnce(l: Life, recs: seq<Rec>)
    requires Keyed(l.store) && (set r | r in recs) == l.store.Values
    requires forall i, j :: 0 <= i < j < |recs| ==> recs[i] != recs[j]
    ensures AsListed(l, recs)
  {
    forall i | 0 <= i < |recs| ensures recs[i].id in l.store && l.store[recs[i].id] == recs[i] {
      assert recs[i] in (set r | r in recs);
      assert recs[i] in l.store.Values;
      var x :| x in l.store && l.store[x] == recs[i];
    }
    forall i, j | 0 <= i < j < |recs| ensures recs[i].id != recs[j].id {
      assert l.store[recs[i].id] == recs[i] && l.store[recs[j].id] == recs[j];
    }
  }

  lemma {:induction false} StartsClearing(l: Life, chs: seq<Choice>)
    requires IsNext(l, Reconcile) && !l.disposed && chs != [] && Lists(l, chs[0])
    requires AllWell(chs) && |chs| >= 1 + |chs[0].ids|
    ensures Advances(Begin(l), chs)
            == Advances(Doing(Cleared(Ended(l), chs[0].ids), OnesFor(chs[0].recs)), chs[1 + |chs[0].ids|..])
  {
    var ids, recs, b := chs[0].ids, chs[0].recs, Ended(l);
    assert chs[0..] == chs && [ReconcileList] == [ReconcileList] + [];
    assert Begin(l) == Doing(b, [ReconcileList] + []);
    On(Begin(l), chs, 0, Doing(b, DropsFor(b, ids) + OnesFor(recs)));
    ClearsAll(b, ids, OnesFor(recs), chs, 1);
  }

  lemma EndsSettled(l: Life, b: Life, e: Life, ids: seq<string>, recs: seq<Rec>)
    requires b.store == l.store && b.managers == l.managers
    requires (set id | id in ids) == l.managers.Keys && (set r | r in recs) == l.store.Values
    requires Keyed(l.store) && AllSettled(Cleared(b, ids), e, recs)
    ensures forall id :: id in l.store ==> Reconciled(l, e, id)
    ensures forall id :: id in e.managers ==> id in l.store
  {
    ClearedThenSettled(b, e, ids, recs);
    forall id | id in l.store ensures Reconciled(l, e, id) {
      assert Reconciled(b, e, id);
    }
  }

  lemma StillAsListed(l: Life, ids: seq<string>, recs: seq<Rec>)
    requires l.waiting != [] && AsListed(l, recs)
    ensures AsListed(Cleared(Ended(l), ids), recs)
  {
  }

  lemma {:induction false} ReconcilesAll(l: Life, chs: seq<Choice>) returns (e: Life)
    requires Keyed(l.store) && AliasesApart(l.store) && IsNext(l, Reconcile) && !l.disposed
    requires chs != [] && Lists(l, chs[0]) && AsListed(l, chs[0].recs)
    requires AllWell(chs) && |chs| >= 1 + |chs[0].ids| + 7 * |chs[0].recs|
    ensures Advances(Begin(l), chs) == e && e.todo == []
    ensures AllSettled(Cleared(Ended(l), chs[0].ids), e, chs[0].recs)
  {
    StartsClearing(l, chs);
    StillAsListed(l, chs[0].ids, chs[0].recs);
    var last := ConnectsAll(Cleared(Ended(l), chs[0].ids), chs[0].recs, chs, 1 + |chs[0].ids|);
    SettledDoing(Cleared(Ended(l), chs[0].ids), last, chs[0].recs);
    e := Doing(last, []);
  }

  /** Reconciling ends every session without a record, of a disabled one or made for another one, and leaves
      every record that is enabled and not disconnected with a session made for it: the one it has, if that
      says it is connected, or else a new one. No other record is touched. */
  lemma {:induction false} ReconcileLeaves(l: Life, chs: seq<Choice>) returns (e: Life)
    requires Keyed(l.store) && AliasesApart(l.store) && IsNext(l, Reconcile) && !l.disposed
    requires chs != [] && Lists(l, chs[0]) && (forall i, j :: 0 <= i < j < |chs[0].recs| ==> chs[0].recs[i] != chs[0].recs[j])
    requires AllWell(chs) && |chs| >= 1 + |chs[0].ids| + 7 * |chs[0].recs|
    ensures Advances(Begin(l), chs) == e && e.todo == [] && e.store.Keys == l.store.Keys && e.waiting == l.waiting[1..]
    ensures forall id :: id in l.store ==> Reconciled(l, e, id)
    ensures forall id :: id in e.managers ==> id in l.store
  {
    ListedOnce(l, chs[0].recs);
    e := ReconcilesAll(l, chs);
    EndsSettled(l, Ended(l), e, chs[0].ids, chs[0].recs);
  }
}
