/** What each lifecycle call leaves behind when nothing fails and nothing comes in between. */
module ConnectionOutcomes {
  import opened Wrappers
  import opened ConnectionLife
  import ToolIdentity

  /** The running call goes on through these stretches. */
  function Advances(l: Life, chs: seq<Choice>): Life
    decreases chs
  {
    if chs == [] then l else Advances(Advance(l, chs[0]), chs[1..])
  }

  predicate AllWell(chs: seq<Choice>) {
    forall k :: 0 <= k < |chs| ==> chs[k].ok
  }

  /** One stretch leads from `l` to `l1`. */
  lemma {:induction false} On(l: Life, chs: seq<Choice>, k: nat, l1: Life)
    requires k < |chs| && Advance(l, chs[k]) == l1
    ensures Advances(l, chs[k..]) == Advances(l1, chs[k + 1..])
  {
    assert chs[k..][0] == chs[k] && chs[k..][1..] == chs[k + 1..];
  }

  lemma {:induction false} NothingToDo(l: Life, chs: seq<Choice>)
    requires l.todo == []
    ensures Advances(l, chs) == l
    decreases chs
  {
    if chs != [] {
      NothingToDo(l, chs[1..]);
    }
  }

  /** The next call in the queue is this one, and nothing runs. */
  predicate IsNext(l: Life, op: Op) {
    l.todo == [] && l.waiting != [] && l.waiting[0] == op
  }

  /** Nothing is left to do of it, and the next one may begin. */
  function Ended(l: Life): Life
    requires l.waiting != []
  {
    l.(waiting := l.waiting[1..], todo := [])
  }

  function Doing(l: Life, works: seq<Work>): Life {
    l.(todo := works)
  }

  // --------------------------------------------------------------------- one stretch

  lemma Next(works: seq<Work>, w: Work, rest: seq<Work>)
    requires works == [w] + rest
    ensures works != [] && works[0] == w && works[1..] == rest
  {
  }

  lemma {:induction false} Drops(l: Life, id: string, rest: seq<Work>, ch: Choice)
    requires ch.ok
    ensures Advance(Doing(l, [Drop(id)] + rest), ch) == Doing(l.(managers := l.managers - {id}), rest)
  {
    Next([Drop(id)] + rest, Drop(id), rest);
  }

  lemma {:induction false} Puts(l: Life, rec: Rec, expected: Option<int>, rest: seq<Work>, ch: Choice)
    requires ch.ok && RevisionOf(l.store, rec.id) == expected
    ensures Advance(Doing(l, [Put(rec, expected)] + rest), ch) == Doing(l.(store := l.store[rec.id := rec]), rest)
  {
    Next([Put(rec, expected)] + rest, Put(rec, expected), rest);
  }

  lemma {:induction false} Deletes(l: Life, id: string, rest: seq<Work>, ch: Choice)
    requires ch.ok
    ensures Advance(Doing(l, [Delete(id)] + rest), ch) == Doing(l.(store := l.store - {id}), rest)
  {
    Next([Delete(id)] + rest, Delete(id), rest);
  }

  lemma {:induction false} Passes(l: Life, w: Work, rest: seq<Work>, ch: Choice)
    requires ch.ok && (w.Revoke? || (w.CheckActive? && !l.disposed))
    ensures Advance(Doing(l, [w] + rest), ch) == Doing(l, rest)
  {
    Next([w] + rest, w, rest);
  }

  // --------------------------------------------------------------- removing, disconnecting

  /** Without its session and without its record; all others are as they were. */
  lemma {:induction false} RemoveLeavesNothing(l: Life, id: string, chs: seq<Choice>)
    requires IsNext(l, Remove(id)) && AllWell(chs) && |chs| >= 4
    ensures Advances(Begin(l), chs)
            == if id in l.store then Ended(l).(managers := l.managers - {id}, store := l.store - {id}) else Ended(l)
  {
    var b, e := Begin(l), Ended(l);
    assert chs[0..] == chs;
    if id !in l.store {
      On(b, chs, 0, e);
      NothingToDo(e, chs[1..]);
    } else {
      var e1 := e.(managers := l.managers - {id});
      var e2 := e1.(store := l.store - {id});
      assert [Drop(id), Delete(id), Revoke] + [] == [Drop(id)] + ([Delete(id)] + ([Revoke] + []));
      On(b, chs, 0, Doing(e, [Drop(id)] + ([Delete(id)] + ([Revoke] + []))));
      Drops(e, id, [Delete(id)] + ([Revoke] + []), chs[1]);
      On(Doing(e, [Drop(id)] + ([Delete(id)] + ([Revoke] + []))), chs, 1, Doing(e1, [Delete(id)] + ([Revoke] + [])));
      Deletes(e1, id, [Revoke] + [], chs[2]);
      On(Doing(e1, [Delete(id)] + ([Revoke] + [])), chs, 2, Doing(e2, [Revoke] + []));
      Passes(e2, Revoke, [], chs[3]);
      On(Doing(e2, [Revoke] + []), chs, 3, Doing(e2, []));
      NothingToDo(e2, chs[4..]);
    }
  }

  /** Without its session; the record stays, and says so. */
  lemma {:induction false} DisconnectLeavesRecord(l: Life, id: string, chs: seq<Choice>)
    requires Keyed(l.store) && IsNext(l, Disconnect(id)) && AllWell(chs) && |chs| >= 3
    ensures Advances(Begin(l), chs)
            == if id in l.store then
                 Ended(l).(managers := l.managers - {id}, store := l.store[id := l.store[id].(status := Disconnected)])
               else Ended(l)
  {
    var b, e := Begin(l), Ended(l);
    assert chs[0..] == chs;
    if id !in l.store {
      On(b, chs, 0, e);
      NothingToDo(e, chs[1..]);
    } else {
      var rec := l.store[id].(status := Disconnected);
      var put := [Put(rec, Some(rec.revision))] + [];
      var e1 := e.(managers := l.managers - {id});
      var e2 := e1.(store := l.store[id := rec]);
      assert [Drop(id), Put(rec, Some(rec.revision))] + [] == [Drop(id)] + put;
      On(b, chs, 0, Doing(e, [Drop(id)] + put));
      Drops(e, id, put, chs[1]);
      On(Doing(e, [Drop(id)] + put), chs, 1, Doing(e1, put));
      Puts(e1, rec, Some(rec.revision), [], chs[2]);
      On(Doing(e1, put), chs, 2, Doing(e2, []));
      NothingToDo(e2, chs[3..]);
    }
  }

  // ------------------------------------------------------------------------ connecting

  /** No other record goes by this alias. */
  predicate AliasFree(l: Life, id: string, serverAlias: string) {
    forall x :: x in l.store && x != id ==> ToolIdentity.Trim(l.store[x].config.serverAlias) != serverAlias
  }

  predicate MayConnect(l: Life, rec: Rec) {
    rec.config.enabled && AliasFree(l, rec.id, ToolIdentity.Trim(rec.config.serverAlias))
  }

  lemma AliasFreeIs(l: Life, rec: Rec, serverAlias: string)
    requires Keyed(l.store)
    ensures AliasFree(l, rec.id, serverAlias) <==> !AliasTaken(l.store.Values, rec, serverAlias)
  {
    if x :| x in l.store && x != rec.id && ToolIdentity.Trim(l.store[x].config.serverAlias) == serverAlias {
      assert l.store[x] in l.store.Values;
    }
  }

  /** The record is connected, with a new session tied to it. */
  function ConnectedAnew(l: Life, rec: Rec): Life {
    l.(store := l.store[rec.id := rec.(status := Connected)],
       managers := l.managers[rec.id := Live(MarkOf(rec), l.nextManager)], nextManager := l.nextManager + 1)
  }

  predicate KeepsSession(l: Life, rec: Rec, saysConnected: bool) {
    rec.id in l.managers && l.managers[rec.id].mark == MarkOf(rec) && saysConnected
  }

  lemma {:induction false} StartsSession(l: Life, rec: Rec, rest: seq<Work>, ch: Choice)
    requires ch.ok && RevisionOf(l.store, rec.id) == Some(rec.revision)
    ensures Advance(Doing(l, [ConnectPut(rec)] + rest), ch)
            == Doing(l.(store := l.store[rec.id := rec.(status := Connecting)], nextManager := l.nextManager + 1),
                     [ConnectWait(rec, l.nextManager)] + rest)
  {
    Next([ConnectPut(rec)] + rest, ConnectPut(rec), rest);
  }

  lemma {:induction false} Installs(l: Life, rec: Rec, m: nat, rest: seq<Work>, ch1: Choice, ch2: Choice)
    requires ch1.ok
    ensures Advance(Advance(Doing(l, [ConnectWait(rec, m)] + rest), ch1), ch2)
            == Doing(l.(managers := l.managers[rec.id := Live(MarkOf(rec), m)]), [PutConnected(rec)] + rest)
  {
    Next([ConnectWait(rec, m)] + rest, ConnectWait(rec, m), rest);
    Next([Install(rec, m)] + rest, Install(rec, m), rest);
    assert Advance(Doing(l, [ConnectWait(rec, m)] + rest), ch1) == Doing(l, [Install(rec, m)] + rest);
  }

  lemma {:induction false} SaysConnected(l: Life, rec: Rec, rest: seq<Work>, ch: Choice)
    requires ch.ok && RevisionOf(l.store, rec.id) == Some(rec.revision)
    ensures Advance(Doing(l, [PutConnected(rec)] + rest), ch)
            == Doing(l.(store := l.store[rec.id := rec.(status := Connected)]), rest)
  {
    Next([PutConnected(rec)] + rest, PutConnected(rec), rest);
  }

  lemma {:induction false} ConnectsAnew(l: Life, rec: Rec, rest: seq<Work>, chs: seq<Choice>, k: nat)
    requires RevisionOf(l.store, rec.id) == Some(rec.revision) && AllWell(chs) && k + 4 <= |chs|
    ensures Advances(Doing(l, [ConnectPut(rec)] + rest), chs[k..]) == Advances(Doing(ConnectedAnew(l, rec), rest), chs[k + 4..])
  {
    var m := l.nextManager;
    var l1 := l.(store := l.store[rec.id := rec.(status := Connecting)], nextManager := m + 1);
    var l2 := l1.(managers := l.managers[rec.id := Live(MarkOf(rec), m)]);
    var w1, w2 := Doing(l1, [ConnectWait(rec, m)] + rest), Doing(l2, [PutConnected(rec)] + rest);
    StartsSession(l, rec, rest, chs[k]);
    On(Doing(l, [ConnectPut(rec)] + rest), chs, k, w1);
    Installs(l1, rec, m, rest, chs[k + 1], chs[k + 2]);
    On(w1, chs, k + 1, Advance(w1, chs[k + 1]));
    On(Advance(w1, chs[k + 1]), chs, k + 2, w2);
    SaysConnected(l2, rec, rest, chs[k + 3]);
    assert l1.store[rec.id := rec.(status := Connected)] == l.store[rec.id := rec.(status := Connected)];
    On(w2, chs, k + 3, Doing(ConnectedAnew(l, rec), rest));
  }

  /** The check before: it throws, or keeps the session there is, or drops it for a new one. */
  lemma {:induction false} Checks(l: Life, rec: Rec, rest: seq<Work>, ch1: Choice, ch2: Choice)
    requires Keyed(l.store) && ch1.ok && ch2.ok
    ensures Advance(Advance(Doing(l, [ConnectList(rec)] + rest), ch1), ch2)
            == if !MayConnect(l, rec) then Doing(l, [])
               else if KeepsSession(l, rec, ch2.connected) then Doing(l, rest)
               else Doing(l.(managers := l.managers - {rec.id}), [ConnectPut(rec)] + rest)
  {
    Next([ConnectList(rec)] + rest, ConnectList(rec), rest);
    Next([ConnectCheck(rec, l.store.Values)] + rest, ConnectCheck(rec, l.store.Values), rest);
    AliasFreeIs(l, rec, ToolIdentity.Trim(rec.config.serverAlias));
    assert Advance(Doing(l, [ConnectList(rec)] + rest), ch1) == Doing(l, [ConnectCheck(rec, l.store.Values)] + rest);
  }

  /** What connecting a stored record comes to, as the last part of a call. */
  function AfterConnect(l: Life, rec: Rec, saysConnected: bool): Life {
    if !MayConnect(l, rec) || KeepsSession(l, rec, saysConnected) then l else ConnectedAnew(l, rec)
  }

  lemma {:induction false} AnewOverDropped(l: Life, rec: Rec)
    ensures ConnectedAnew(l.(managers := l.managers - {rec.id}), rec) == ConnectedAnew(l, rec)
  {
    var live := Live(MarkOf(rec), l.nextManager);
    assert (l.managers - {rec.id})[rec.id := live] == l.managers[rec.id := live];
  }

  lemma {:induction false} ConnectRecordIs(l: Life, rec: Rec, chs: seq<Choice>, k: nat)
    requires Keyed(l.store) && RevisionOf(l.store, rec.id) == Some(rec.revision)
    requires AllWell(chs) && k + 6 <= |chs|
    ensures Advances(Doing(l, [ConnectList(rec)] + []), chs[k..]) == Doing(AfterConnect(l, rec, chs[k + 1].connected), [])
  {
    var w := Doing(l, [ConnectList(rec)] + []);
    var w1 := Advance(w, chs[k]);
    On(w, chs, k, w1);
    Checks(l, rec, [], chs[k], chs[k + 1]);
    if !MayConnect(l, rec) || KeepsSession(l, rec, chs[k + 1].connected) {
      On(w1, chs, k + 1, Doing(l, []));
      NothingToDo(Doing(l, []), chs[k + 2..]);
    } else {
      Renews(l, rec, w1, chs, k + 1);
    }
  }

  lemma {:induction false} Renews(l: Life, rec: Rec, w: Life, chs: seq<Choice>, k: nat)
    requires RevisionOf(l.store, rec.id) == Some(rec.revision) && AllWell(chs) && k + 5 <= |chs|
    requires Advance(w, chs[k]) == Doing(l.(managers := l.managers - {rec.id}), [ConnectPut(rec)] + [])
    ensures Advances(w, chs[k..]) == Doing(ConnectedAnew(l, rec), [])
  {
    var l1 := l.(managers := l.managers - {rec.id});
    On(w, chs, k, Doing(l1, [ConnectPut(rec)] + []));
    ConnectsAnew(l1, rec, [], chs, k + 1);
    AnewOverDropped(l, rec);
    NothingToDo(Doing(ConnectedAnew(l, rec), []), chs[k + 5..]);
  }

  lemma {:induction false} Requires(l: Life, id: string, chs: seq<Choice>, k: nat)
    requires Keyed(l.store) && AllWell(chs) && k + 7 <= |chs|
    ensures Advances(Doing(l, [ConnectRead(id)] + []), chs[k..])
            == Doing(if id in l.store then AfterConnect(l, l.store[id], chs[k + 2].connected) else l, [])
  {
    Next([ConnectRead(id)] + [], ConnectRead(id), []);
    if id in l.store {
      On(Doing(l, [ConnectRead(id)] + []), chs, k, Doing(l, [ConnectList(l.store[id])] + []));
      ConnectRecordIs(l, l.store[id], chs, k + 1);
    } else {
      On(Doing(l, [ConnectRead(id)] + []), chs, k, Doing(l, []));
      NothingToDo(Doing(l, []), chs[k + 1..]);
    }
  }

  /** Connecting leaves an enabled record of its own alias connected, with a session tied to it: the one
      there is, if that says so, or else a new one. Anything else it leaves alone. */
  lemma {:induction false} ConnectLeavesSession(l: Life, id: string, chs: seq<Choice>)
    requires Keyed(l.store) && IsNext(l, ConnectionLife.Connect(id)) && AllWell(chs) && |chs| >= 8
    ensures Advances(Begin(l), chs)
            == if l.disposed || id !in l.store then Ended(l) else AfterConnect(Ended(l), l.store[id], chs[3].connected)
  {
    var e := Ended(l);
    assert chs[0..] == chs && [CheckActive, ConnectRead(id)] == [CheckActive] + ([ConnectRead(id)] + []);
    assert Begin(l) == Doing(e, [CheckActive] + ([ConnectRead(id)] + []));
    if l.disposed {
      On(Begin(l), chs, 0, e);
      NothingToDo(e, chs[1..]);
    } else {
      Passes(e, CheckActive, [ConnectRead(id)] + [], chs[0]);
      On(Begin(l), chs, 0, Doing(e, [ConnectRead(id)] + []));
      Requires(e, id, chs, 1);
    }
  }

  /** Reconnecting always leaves a new session. */
  function AfterReconnect(l: Life, id: string): Life {
    if id in l.store && MayConnect(l, l.store[id]) then ConnectedAnew(l, l.store[id])
    else l.(managers := l.managers - {id})
  }

  lemma {:induction false} RequiredAfterDrop(l: Life, id: string, saysConnected: bool)
    requires Keyed(l.store)
    ensures var l1 := l.(managers := l.managers - {id});
            AfterReconnect(l, id) == if id in l.store then AfterConnect(l1, l.store[id], saysConnected) else l1
  {
    if id in l.store {
      AnewOverDropped(l, l.store[id]);
    }
  }

  lemma {:induction false} ReconnectLeavesNewSession(l: Life, id: string, chs: seq<Choice>)
    requires Keyed(l.store) && IsNext(l, Reconnect(id)) && AllWell(chs) && |chs| >= 9
    ensures Advances(Begin(l), chs) == if l.disposed then Ended(l) else AfterReconnect(Ended(l), id)
  {
    var e := Ended(l);
    var read := [ConnectRead(id)] + [];
    assert chs[0..] == chs && [CheckActive, Drop(id), ConnectRead(id)] == [CheckActive] + ([Drop(id)] + read);
    assert Begin(l) == Doing(e, [CheckActive] + ([Drop(id)] + read));
    if l.disposed {
      On(Begin(l), chs, 0, e);
      NothingToDo(e, chs[1..]);
    } else {
      var e1 := e.(managers := l.managers - {id});
      Passes(e, CheckActive, [Drop(id)] + read, chs[0]);
      On(Begin(l), chs, 0, Doing(e, [Drop(id)] + read));
      Drops(e, id, read, chs[1]);
      On(Doing(e, [Drop(id)] + read), chs, 1, Doing(e1, read));
      Requires(e1, id, chs, 2);
      RequiredAfterDrop(e, id, chs[4].connected);
    }
  }

  // ---------------------------------------------------------------------------- saving

  /** The revision follows the stored one, the identities are there and are the stored ones, and the alias
      is well formed and free. */
  predicate MaySave(l: Life, input: Rec, expected: Option<int>) {
    && !l.disposed && expected == (if input.id in l.store then Some(l.store[input.id].revision) else None)
    && input.revision == (if expected.Some? then expected.value else 0) + 1
    && input.id != "" && input.accountId != ""
    && (input.id in l.store ==>
          var prior := l.store[input.id];
          prior.accountId == input.accountId && prior.connectorId == input.connectorId && prior.workspaceId == input.workspaceId)
    && ToolIdentity.NormalizeServerAlias(input.config.serverAlias).Ok?
    && AliasFree(l, input.id, ToolIdentity.Trim(input.config.serverAlias))
  }

  /** The record as it is stored: disconnected as yet, its credentials turned into references. */
  function Stored(input: Rec, config: Config): Rec {
    input.(config := config, status := Disconnected)
  }

  lemma {:induction false} SaveChecks(l: Life, input: Rec, expected: Option<int>, chs: seq<Choice>)
    requires Keyed(l.store) && AllWell(chs) && |chs| >= 3
    ensures var serverAlias := ToolIdentity.Trim(input.config.serverAlias);
            var draft := input.(config := input.config.(serverAlias := serverAlias), status := Disconnected);
            Advances(Doing(l, [SaveRead(input, expected)] + []), chs)
            == if MaySave(l, input, expected) then Advances(Doing(l, [SaveSecrets(draft, expected)] + []), chs[3..])
               else Doing(l, [])
  {
    var prior, serverAlias := Lookup(l.store, input.id), ToolIdentity.Trim(input.config.serverAlias);
    var draft := input.(config := input.config.(serverAlias := serverAlias), status := Disconnected);
    var w0, w1 := Doing(l, [SaveRead(input, expected)] + []), Doing(l, [SaveCheck(input, expected, prior)] + []);
    var w2 := Doing(l, [SaveUnique(input, expected, l.store.Values)] + []);
    AliasFreeIs(l, input, serverAlias);
    assert chs[0..] == chs;
    if l.disposed {
      On(w0, chs, 0, Doing(l, []));
      NothingToDo(Doing(l, []), chs[1..]);
    } else if SaveError(l, input, expected, prior) {
      On(w0, chs, 0, w1);
      On(w1, chs, 1, Doing(l, []));
      NothingToDo(Doing(l, []), chs[2..]);
    } else {
      On(w0, chs, 0, w1);
      On(w1, chs, 1, w2);
      On(w2, chs, 2, if AliasFree(l, input.id, serverAlias) then Doing(l, [SaveSecrets(draft, expected)] + []) else Doing(l, []));
      if !AliasFree(l, input.id, serverAlias) {
        NothingToDo(Doing(l, []), chs[3..]);
      }
    }
  }

  lemma {:induction false} SaveStores(l: Life, input: Rec, draft: Rec, expected: Option<int>, chs: seq<Choice>)
    requires AllWell(chs) && |chs| >= 7 && RevisionOf(l.store, input.id) == expected
    requires Stored(draft, chs[3].config) == Stored(input, chs[3].config) && draft.status == Disconnected
    ensures var rec := Stored(input, chs[3].config);
            var e := l.(managers := l.managers - {rec.id}, store := l.store[rec.id := rec]);
            Advances(Doing(l, [SaveSecrets(draft, expected)] + []), chs[3..])
            == Advances(Doing(e, if rec.config.enabled then [ConnectList(rec)] + [] else []), chs[7..])
  {
    var rec := Stored(input, chs[3].config);
    var after := [AfterSave(rec)] + [];
    var l1 := l.(managers := l.managers - {rec.id});
    var e := l1.(store := l.store[rec.id := rec]);
    assert [Drop(rec.id), Put(rec, expected), AfterSave(rec)] + [] == [Drop(rec.id)] + ([Put(rec, expected)] + after);
    On(Doing(l, [SaveSecrets(draft, expected)] + []), chs, 3, Doing(l, [Drop(rec.id)] + ([Put(rec, expected)] + after)));
    Drops(l, rec.id, [Put(rec, expected)] + after, chs[4]);
    On(Doing(l, [Drop(rec.id)] + ([Put(rec, expected)] + after)), chs, 4, Doing(l1, [Put(rec, expected)] + after));
    Puts(l1, rec, expected, after, chs[5]);
    On(Doing(l1, [Put(rec, expected)] + after), chs, 5, Doing(e, after));
    Next(after, AfterSave(rec), []);
    assert (if rec.config.enabled then [ConnectList(rec)] else []) + [] == if rec.config.enabled then [ConnectList(rec)] + [] else [];
    On(Doing(e, after), chs, 6, Doing(e, if rec.config.enabled then [ConnectList(rec)] + [] else []));
  }

  /** A saved record is stored, without the session of the one before; an enabled one is connected then, with
      a session of its own. A refused one changes nothing. The credentials leave the alias as it is. */
  lemma {:induction false} SaveLeavesRecord(l: Life, input: Rec, expected: Option<int>, chs: seq<Choice>)
    requires Keyed(l.store) && IsNext(l, Save(input, expected)) && AllWell(chs) && |chs| >= 13
    requires chs[3].config.serverAlias == ToolIdentity.Trim(input.config.serverAlias)
    ensures var rec := Stored(input, chs[3].config);
            Advances(Begin(l), chs)
            == if !MaySave(l, input, expected) then Ended(l)
               else if rec.config.enabled then ConnectedAnew(Ended(l), rec)
               else Ended(l).(managers := l.managers - {rec.id}, store := l.store[rec.id := rec])
  {
    var e := Ended(l);
    var draft := input.(config := input.config.(serverAlias := ToolIdentity.Trim(input.config.serverAlias)), status := Disconnected);
    assert Begin(l) == Doing(e, [SaveRead(input, expected)] + []);
    MaySaveThen(l, e, input, expected, chs[3].config);
    SaveChecks(e, input, expected, chs);
    if MaySave(e, input, expected) {
      SaveStores(e, input, draft, expected, chs);
      SavedIs(e, Stored(input, chs[3].config), chs);
    }
  }

  lemma {:induction false} MaySaveThen(l: Life, e: Life, input: Rec, expected: Option<int>, config: Config)
    requires e.store == l.store && e.disposed == l.disposed && config.serverAlias == ToolIdentity.Trim(input.config.serverAlias)
    ensures MaySave(e, input, expected) <==> MaySave(l, input, expected)
    ensures MaySave(l, input, expected) ==>
              RevisionOf(e.store, input.id) == expected && AliasFree(e, input.id, ToolIdentity.Trim(config.serverAlias))
  {
    ToolIdentity.TrimTwice(input.config.serverAlias);
  }

  lemma {:induction false} SavedIs(l: Life, rec: Rec, chs: seq<Choice>)
    requires Keyed(l.store) && AllWell(chs) && |chs| >= 13 && AliasFree(l, rec.id, ToolIdentity.Trim(rec.config.serverAlias))
    ensures var e := l.(managers := l.managers - {rec.id}, store := l.store[rec.id := rec]);
            Advances(Doing(e, if rec.config.enabled then [ConnectList(rec)] + [] else []), chs[7..])
            == Doing(if rec.config.enabled then ConnectedAnew(l, rec) else e, [])
  {
    var e := l.(managers := l.managers - {rec.id}, store := l.store[rec.id := rec]);
    if rec.config.enabled {
      ConnectRecordIs(e, rec, chs, 7);
      SavedAnew(l, rec);
    } else {
      NothingToDo(Doing(e, []), chs[7..]);
    }
  }

  lemma {:induction false} SavedAnew(l: Life, rec: Rec)
    ensures ConnectedAnew(l.(managers := l.managers - {rec.id}, store := l.store[rec.id := rec]), rec) == ConnectedAnew(l, rec)
  {
    AnewOverDropped(l, rec);
    var r := rec.(status := Connected);
    assert l.store[rec.id := rec][rec.id := r] == l.store[rec.id := r];
  }

  // ------------------------------------------------------------------------- disposing

  function Named(ids: seq<string>): set<string> {
    set id | id in ids
  }

  lemma {:induction false} OneDropped(m: map<string, Live>, id: string, rest: seq<string>)
    ensures (m - {id}) - Named(rest) == m - Named([id] + rest)
  {
    assert Named([id] + rest) == {id} + Named(rest);
  }

  lemma {:induction false} FirstDrop(ids: seq<string>)
    requires ids != []
    ensures DropsOf(ids) == [Drop(ids[0])] + DropsOf(ids[1..])
  {
  }

  lemma {:induction false} DropsAll(l: Life, ids: seq<string>, chs: seq<Choice>, k: nat)
    requires AllWell(chs) && k + |ids| <= |chs|
    ensures Advances(Doing(l, DropsOf(ids)), chs[k..]) == Doing(l.(managers := l.managers - Named(ids)), [])
    decreases |ids|
  {
    if ids == [] {
      assert DropsOf(ids) == [] && l.managers - Named(ids) == l.managers;
      NothingToDo(Doing(l, []), chs[k..]);
    } else {
      var rest := ids[1..];
      var l1 := l.(managers := l.managers - {ids[0]});
      FirstDrop(ids);
      Drops(l, ids[0], DropsOf(rest), chs[k]);
      On(Doing(l, DropsOf(ids)), chs, k, Doing(l1, DropsOf(rest)));
      DropsAll(l1, rest, chs, k + 1);
      OneDropped(l.managers, ids[0], rest);
      assert [ids[0]] + rest == ids;
    }
  }

  /** A disposed service has no session left, and its records are as they were. */
  lemma {:induction false} DisposeLeavesNoSession(l: Life, chs: seq<Choice>)
    requires IsNext(l, Dispose) && AllWell(chs) && chs != [] && |chs| >= 1 + |chs[0].ids| && Lists(l, chs[0])
    ensures Advances(Begin(l), chs) == Ended(l).(managers := map[], disposed := true)
  {
    var ids, e := chs[0].ids, Ended(l);
    var e1 := e.(disposed := true);
    assert chs[0..] == chs;
    assert Named(ids) == l.managers.Keys;
    On(Begin(l), chs, 0, Doing(e1, DropsOf(ids)));
    DropsAll(e1, ids, chs, 1);
    assert l.managers - l.managers.Keys == map[];
  }
}
