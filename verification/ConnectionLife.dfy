/**
 Connections to tool servers: saving, connecting, disconnecting and removing them, one call at a
 time, each call cut at its awaits. What an await may bring is a choice of the step.

 A session object is a number that is never used twice. Only this service writes the store.
 */
module ConnectionLife {
  import opened Wrappers
  import ToolIdentity

  datatype Config = Config(serverAlias: string, enabled: bool, transport: string)

  datatype Status = Disconnected | Connecting | Connected | NeedsAuthentication | Failed

  datatype Rec = Rec(id: string, connectorId: string, revision: int, accountId: string, workspaceId: Option<string>,
                     config: Config, status: Status)

  /** What a session is tied to: everything of a record that a status change leaves alone. */
  datatype Fingerprint = Fingerprint(revision: int, accountId: string, workspaceId: Option<string>, config: Config)

  function MarkOf(rec: Rec): Fingerprint {
    Fingerprint(rec.revision, rec.accountId, rec.workspaceId, rec.config)
  }

  datatype Live = Live(mark: Fingerprint, manager: nat)

  // ------------------------------------------------------------------------- store

  function RevisionOf(store: map<string, Rec>, id: string): Option<int> {
    if id in store then Some(store[id].revision) else None
  }

  /** Compare and swap on the revision; no expected revision means create only. */
  function PutRecord(store: map<string, Rec>, rec: Rec, expected: Option<int>): Option<map<string, Rec>> {
    if RevisionOf(store, rec.id) != expected then None else Some(store[rec.id := rec])
  }

  class MemoryConnectionStore {
    var records: map<string, Rec>

    constructor ()
      ensures records == map[]
    {
      records := map[];
    }

    method Put(rec: Rec, expected: Option<int>) returns (stored: bool)
      modifies this
      ensures match PutRecord(old(records), rec, expected)
              case None => !stored && records == old(records)
              case Some(next) => stored && records == next
    {
      var revision := if rec.id in records then Some(records[rec.id].revision) else None;
      if revision != expected { return false; }
      records := records[rec.id := rec];
      return true;
    }

    method Delete(id: string)
      modifies this
      ensures records == old(records) - {id}
    {
      records := records - {id};
    }
  }

  // --------------------------------------------------------------------- lifecycle

  datatype Op = Save(input: Rec, expected: Option<int>) | Connect(id: string) | Reconnect(id: string)
              | Disconnect(id: string) | Remove(id: string) | Reconcile | Dispose

  /** What is still to do of the running call, one stretch between two awaits at a time. */
  datatype Work =
    | SaveRead(input: Rec, expected: Option<int>)
    | SaveCheck(input: Rec, expected: Option<int>, prior: Option<Rec>)
    | SaveUnique(input: Rec, expected: Option<int>, others: set<Rec>)
    | SaveSecrets(draft: Rec, expected: Option<int>)
    | Drop(id: string)
    | Put(rec: Rec, expected: Option<int>)
    | AfterSave(rec: Rec)
    | Delete(id: string)
    | Revoke
    | CheckActive
    | ConnectRead(id: string)
    | ConnectList(rec: Rec)
    | ConnectCheck(rec: Rec, others: set<Rec>)
    | ConnectPut(rec: Rec)
    | ConnectWait(rec: Rec, manager: nat)
    | Install(rec: Rec, manager: nat)
    | PutConnected(rec: Rec)
    | PutFailed(rec: Rec)
    | DisconnectRead(id: string)
    | RemoveRead(id: string)
    | ReconcileList
    | DropIfStale(id: string, known: Option<Rec>)
    | ReconcileOne(rec: Rec)
    | DisposeAll

  datatype Life = Life(store: map<string, Rec>, managers: map<string, Live>, nextManager: nat, disposed: bool,
                       waiting: seq<Op>, todo: seq<Work>)

  /**
   What happens outside during a stretch: `ok` whether it succeeds, `config` what credentials are
   turned into, `connected` whether the session says it is, `needsAuth` why it failed; and the
   orders in which sessions and records are listed.
   */
  datatype Choice = Choice(ok: bool, config: Config, connected: bool, needsAuth: bool, ids: seq<string>, recs: seq<Rec>)

  function Program(op: Op): seq<Work> {
    match op
    case Save(input, expected) => [SaveRead(input, expected)]
    case Connect(id) => [CheckActive, ConnectRead(id)]
    case Reconnect(id) => [CheckActive, Drop(id), ConnectRead(id)]
    case Disconnect(id) => [DisconnectRead(id)]
    case Remove(id) => [RemoveRead(id)]
    case Reconcile => [ReconcileList]
    case Dispose => [DisposeAll]
  }

  /** A call that throws: nothing of it is left to do. */
  function Throw(l: Life): Life {
    l.(todo := [])
  }

  predicate AliasTaken(others: set<Rec>, rec: Rec, serverAlias: string) {
    exists other :: other in others && other.id != rec.id && ToolIdentity.Trim(other.config.serverAlias) == serverAlias
  }

  predicate SaveError(l: Life, input: Rec, expected: Option<int>, prior: Option<Rec>) {
    || (if prior.Some? then Some(prior.value.revision) else None) != expected
    || input.revision != expected.GetOr(0) + 1
    || input.id == "" || input.accountId == ""
    || (prior.Some? && (prior.value.accountId != input.accountId || prior.value.connectorId != input.connectorId
                        || prior.value.workspaceId != input.workspaceId))
    || ToolIdentity.NormalizeServerAlias(input.config.serverAlias).Err?
  }

  function Lookup(store: map<string, Rec>, id: string): Option<Rec> {
    if id in store then Some(store[id]) else None
  }

  function DropsFor(l: Life, ids: seq<string>): (works: seq<Work>)
    ensures |works| == |ids| && forall k :: 0 <= k < |ids| ==> works[k] == DropIfStale(ids[k], Lookup(l.store, ids[k]))
  {
    seq(|ids|, k requires 0 <= k < |ids| => DropIfStale(ids[k], Lookup(l.store, ids[k])))
  }

  function OnesFor(recs: seq<Rec>): (works: seq<Work>)
    ensures |works| == |recs| && forall k :: 0 <= k < |recs| ==> works[k] == ReconcileOne(recs[k])
  {
    seq(|recs|, k requires 0 <= k < |recs| => ReconcileOne(recs[k]))
  }

  function DropsOf(ids: seq<string>): (works: seq<Work>)
    ensures |works| == |ids| && forall k :: 0 <= k < |ids| ==> works[k] == Drop(ids[k])
  {
    seq(|ids|, k requires 0 <= k < |ids| => Drop(ids[k]))
  }

  predicate Lists(l: Life, ch: Choice) {
    (set id | id in ch.ids) == l.managers.Keys && (set r | r in ch.recs) == l.store.Values
  }

  function SaveStretch(l: Life, rest: seq<Work>, w: Work, ch: Choice): Life {
    match w
    case SaveRead(input, expected) =>
      if l.disposed then Throw(l) else l.(todo := [SaveCheck(input, expected, Lookup(l.store, input.id))] + rest)
    case SaveCheck(input, expected, prior) =>
      if SaveError(l, input, expected, prior) then Throw(l)
      else l.(todo := [SaveUnique(input, expected, l.store.Values)] + rest)
    case SaveUnique(input, expected, others) =>
      var serverAlias := ToolIdentity.Trim(input.config.serverAlias);
      if !ch.ok || AliasTaken(others, input, serverAlias) then Throw(l)
      else
        var draft := input.(config := input.config.(serverAlias := serverAlias), status := Disconnected);
        l.(todo := [SaveSecrets(draft, expected)] + rest)
    case SaveSecrets(draft, expected) =>
      if !ch.ok then Throw(l)
      else
        var saved := draft.(config := ch.config);
        l.(todo := [Drop(draft.id), Put(saved, expected), AfterSave(saved)] + rest)
    case AfterSave(rec) => l.(todo := (if rec.config.enabled then [ConnectList(rec)] else []) + rest)
    case _ => l
  }

  function StoreStretch(l: Life, rest: seq<Work>, w: Work, ch: Choice): Life {
    match w
    case Drop(id) =>
      var dropped := l.(managers := l.managers - {id});
      if ch.ok then dropped.(todo := rest) else Throw(dropped)
    case Put(rec, expected) =>
      (match PutRecord(l.store, rec, expected)
       case None => Throw(l)
       case Some(store) => if ch.ok then l.(store := store, todo := rest) else Throw(l))
    case Delete(id) => if ch.ok then l.(store := l.store - {id}, todo := rest) else Throw(l)
    case Revoke => if ch.ok then l.(todo := rest) else Throw(l)
    case CheckActive => if l.disposed then Throw(l) else l.(todo := rest)
    case DisconnectRead(id) =>
      if id !in l.store then Throw(l)
      else
        var rec := l.store[id].(status := Disconnected);
        l.(todo := [Drop(id), Put(rec, Some(rec.revision))] + rest)
    case RemoveRead(id) =>
      if id !in l.store then Throw(l) else l.(todo := [Drop(id), Delete(id), Revoke] + rest)
    case ReconcileList =>
      if l.disposed || !Lists(l, ch) then Throw(l) else l.(todo := DropsFor(l, ch.ids) + OnesFor(ch.recs))
    case DropIfStale(id, known) =>
      if id in l.managers && (known.None? || !known.value.config.enabled || l.managers[id].mark != MarkOf(known.value))
      then
        var dropped := l.(managers := l.managers - {id});
        if ch.ok then dropped.(todo := rest) else Throw(dropped)
      else l.(todo := rest)
    case ReconcileOne(rec) =>
      if !ch.ok then Throw(l)
      else l.(todo := (if rec.config.enabled && rec.status != Disconnected then [ConnectList(rec)] else []) + rest)
    case DisposeAll =>
      if Lists(l, ch) then l.(disposed := true, todo := DropsOf(ch.ids)) else l
    case _ => l
  }

  function ConnectStretch(l: Life, rest: seq<Work>, w: Work, ch: Choice): Life {
    match w
    case ConnectRead(id) => if id !in l.store then Throw(l) else l.(todo := [ConnectList(l.store[id])] + rest)
    case ConnectList(rec) => if !ch.ok then Throw(l) else l.(todo := [ConnectCheck(rec, l.store.Values)] + rest)
    case ConnectCheck(rec, others) =>
      if AliasTaken(others, rec, ToolIdentity.Trim(rec.config.serverAlias)) || !rec.config.enabled then Throw(l)
      else if rec.id in l.managers && l.managers[rec.id].mark == MarkOf(rec) && ch.connected then l.(todo := rest)
      else
        var dropped := l.(managers := l.managers - {rec.id});
        if ch.ok then dropped.(todo := [ConnectPut(rec)] + rest) else Throw(dropped)
    case ConnectPut(rec) =>
      (match PutRecord(l.store, rec.(status := Connecting), Some(rec.revision))
       case None => Throw(l)
       case Some(store) =>
         if ch.ok then l.(store := store, nextManager := l.nextManager + 1, todo := [ConnectWait(rec, l.nextManager)] + rest)
         else Throw(l))
    case ConnectWait(rec, manager) => l.(todo := [if ch.ok then Install(rec, manager) else PutFailed(rec)] + rest)
    case Install(rec, manager) =>
      l.(managers := l.managers[rec.id := Live(MarkOf(rec), manager)], todo := [PutConnected(rec)] + rest)
    case PutConnected(rec) =>
      (match PutRecord(l.store, rec.(status := Connected), Some(rec.revision))
       case Some(store) => if ch.ok then l.(store := store, todo := rest) else l.(todo := [PutFailed(rec)] + rest)
       case None => l.(todo := [PutFailed(rec)] + rest))
    case PutFailed(rec) =>
      (match PutRecord(l.store, rec.(status := if ch.needsAuth then NeedsAuthentication else Failed), Some(rec.revision))
       case Some(store) => if ch.ok then Throw(l.(store := store)) else Throw(l)
       case None => Throw(l))
    case _ => l
  }

  predicate InConnect(w: Work) {
    w.ConnectRead? || w.ConnectList? || w.ConnectCheck? || w.ConnectPut? || w.ConnectWait? || w.Install? || w.PutConnected? || w.PutFailed?
  }

  predicate InSave(w: Work) {
    w.SaveRead? || w.SaveCheck? || w.SaveUnique? || w.SaveSecrets? || w.AfterSave?
  }

  /** The running call goes on to its next await. */
  function Advance(l: Life, ch: Choice): Life {
    if l.todo == [] then l
    else
      var w, rest := l.todo[0], l.todo[1..];
      if InConnect(w) then ConnectStretch(l, rest, w, ch)
      else if InSave(w) then SaveStretch(l, rest, w, ch)
      else StoreStretch(l, rest, w, ch)
  }

  /** The calls are serialized: the next one begins when the one before has ended. */
  function Begin(l: Life): Life {
    if l.todo == [] && l.waiting != [] then l.(waiting := l.waiting[1..], todo := Program(l.waiting[0])) else l
  }

  datatype Move = Request(op: Op) | Beginning | Advancing(ch: Choice)

  function Moved(l: Life, m: Move): Life {
    match m
    case Request(op) => l.(waiting := l.waiting + [op])
    case Beginning => Begin(l)
    case Advancing(ch) => Advance(l, ch)
  }

  // --------------------------------------------------------------------- invariant

  /** The record still is the stored one, but for its status. */
  predicate Current(l: Life, rec: Rec) {
    rec.id in l.store && MarkOf(l.store[rec.id]) == MarkOf(rec)
  }

  /** The session is gone, or will be by the step just before. */
  predicate Dropped(l: Life, todo: seq<Work>, k: nat, id: string)
    requires k < |todo|
  {
    if k == 0 then id !in l.managers else todo[k - 1] == Drop(id)
  }

  predicate IsLast(todo: seq<Work>, k: nat) {
    k + 1 == |todo|
  }

  predicate WorkOk(l: Life, todo: seq<Work>, k: nat)
    requires k < |todo|
  {
    match todo[k]
    case SaveRead(_, _) => IsLast(todo, k)
    case SaveCheck(_, _, _) => IsLast(todo, k)
    case SaveUnique(_, _, _) => IsLast(todo, k)
    case SaveSecrets(_, _) => IsLast(todo, k)
    case DisconnectRead(_) => IsLast(todo, k)
    case RemoveRead(_) => IsLast(todo, k)
    case Put(rec, _) => Dropped(l, todo, k, rec.id) && (IsLast(todo, k) || (IsLast(todo, k + 1) && todo[k + 1] == AfterSave(rec)))
    case Delete(id) => Dropped(l, todo, k, id) && IsLast(todo, k + 1) && todo[k + 1] == Revoke
    case AfterSave(rec) => IsLast(todo, k) && if k == 0 then Current(l, rec) else todo[k - 1].Put? && todo[k - 1].rec == rec
    case ConnectList(rec) => Current(l, rec)
    case ConnectCheck(rec, _) => Current(l, rec)
    case ConnectPut(rec) => Current(l, rec)
    case ConnectWait(rec, m) => Current(l, rec) && m < l.nextManager
    case Install(rec, m) => Current(l, rec) && m < l.nextManager
    case PutConnected(rec) => Current(l, rec)
    case PutFailed(rec) => Current(l, rec)
    case ReconcileOne(rec) => Current(l, rec)
    case _ => true
  }

  predicate AllOk(l: Life) {
    forall k :: 0 <= k < |l.todo| ==> WorkOk(l, l.todo, k)
  }

  predicate Keyed(store: map<string, Rec>) {
    forall id :: id in store ==> store[id].id == id
  }

  /** Every live session is tied to the record as it is stored now. */
  predicate SessionsMatch(l: Life) {
    forall id :: id in l.managers ==>
      id in l.store && MarkOf(l.store[id]) == l.managers[id].mark && l.managers[id].manager < l.nextManager
  }

  predicate LifeInv(l: Life) {
    Keyed(l.store) && SessionsMatch(l) && AllOk(l)
  }

  /** The store keeps every record's mark, and so what the works rely on. */
  predicate SameMarks(l: Life, l': Life) {
    && l'.store.Keys == l.store.Keys && (forall id :: id in l.store ==> MarkOf(l'.store[id]) == MarkOf(l.store[id]))
    && l'.nextManager >= l.nextManager && Keyed(l'.store) && SessionsMatch(l')
  }

  /** The first work done, and others put in its place. */
  lemma Replaced(l: Life, l': Life, pushed: seq<Work>)
    requires LifeInv(l) && l.todo != [] && l'.todo == pushed + l.todo[1..] && SameMarks(l, l')
    requires pushed != [] && forall k :: 0 <= k < |pushed| ==> WorkOk(l', l'.todo, k)
    requires !l.todo[0].Drop? && !l.todo[0].Put?
    ensures LifeInv(l')
  {
    var n := |pushed|;
    forall k | 0 <= k < |l'.todo| ensures WorkOk(l', l'.todo, k) {
      if k >= n {
        var j := k - n + 1;
        assert l'.todo[k] == l.todo[j] && WorkOk(l, l.todo, j);
        assert j > 1 ==> k > n && l'.todo[k - 1] == l.todo[j - 1];
        assert j + 1 < |l.todo| ==> l'.todo[k + 1] == l.todo[j + 1];
      }
    }
  }

  /** The first work done, and nothing in its place. */
  lemma Popped(l: Life, l': Life)
    requires LifeInv(l) && l.todo != [] && l'.todo == l.todo[1..] && SameMarks(l, l')
    requires l.todo[0].Drop? ==> l.todo[0].id !in l'.managers
    requires !l.todo[0].Put?
    ensures LifeInv(l')
  {
    forall k | 0 <= k < |l'.todo| ensures WorkOk(l', l'.todo, k) {
      assert l'.todo[k] == l.todo[k + 1] && WorkOk(l, l.todo, k + 1);
      assert k > 0 ==> l'.todo[k - 1] == l.todo[k];
      assert k + 2 < |l.todo| ==> l'.todo[k + 1] == l.todo[k + 2];
    }
  }

  lemma Thrown(l: Life)
    requires Keyed(l.store) && SessionsMatch(l)
    ensures LifeInv(Throw(l))
  {
  }

  lemma WithoutSession(l: Life, id: string)
    requires SessionsMatch(l)
    ensures SessionsMatch(l.(managers := l.managers - {id}))
  {
  }

  lemma StatusPut(l: Life, rec: Rec, status: Status)
    requires Keyed(l.store) && SessionsMatch(l) && Current(l, rec)
    ensures var put := PutRecord(l.store, rec.(status := status), Some(rec.revision));
            put.Some? && SameMarks(l, l.(store := put.value))
  {
  }

  // ---------------------------------------------------------------- the stretches

  lemma ConnectReadOk(l: Life, ch: Choice)
    requires LifeInv(l) && l.todo != [] && l.todo[0].ConnectRead?
    ensures LifeInv(Advance(l, ch))
  {
    var l' := Advance(l, ch);
    Thrown(l);
    if l.todo[0].id in l.store {
      Replaced(l, l', [ConnectList(l.store[l.todo[0].id])]);
    }
  }

  lemma ConnectListOk(l: Life, ch: Choice)
    requires LifeInv(l) && l.todo != [] && l.todo[0].ConnectList?
    ensures LifeInv(Advance(l, ch))
  {
    assert WorkOk(l, l.todo, 0);
    Thrown(l);
    if ch.ok {
      Replaced(l, Advance(l, ch), [ConnectCheck(l.todo[0].rec, l.store.Values)]);
    }
  }

  lemma ConnectCheckOk(l: Life, ch: Choice)
    requires LifeInv(l) && l.todo != [] && l.todo[0].ConnectCheck?
    ensures LifeInv(Advance(l, ch))
  {
    var rec, l' := l.todo[0].rec, Advance(l, ch);
    assert WorkOk(l, l.todo, 0);
    Thrown(l);
    WithoutSession(l, rec.id);
    var dropped := l.(managers := l.managers - {rec.id});
    Thrown(dropped);
    if l'.todo == [ConnectPut(rec)] + l.todo[1..] && l'.managers == dropped.managers {
      Replaced(l, l', [ConnectPut(rec)]);
    } else if l' == l.(todo := l.todo[1..]) {
      Popped(l, l');
    }
  }

  lemma ConnectPutOk(l: Life, ch: Choice)
    requires LifeInv(l) && l.todo != [] && l.todo[0].ConnectPut?
    ensures LifeInv(Advance(l, ch))
  {
    var rec := l.todo[0].rec;
    assert WorkOk(l, l.todo, 0);
    Thrown(l);
    StatusPut(l, rec, Connecting);
    if ch.ok {
      Replaced(l, Advance(l, ch), [ConnectWait(rec, l.nextManager)]);
    }
  }

  lemma ConnectWaitOk(l: Life, ch: Choice)
    requires LifeInv(l) && l.todo != [] && l.todo[0].ConnectWait?
    ensures LifeInv(Advance(l, ch))
  {
    var w := l.todo[0];
    assert WorkOk(l, l.todo, 0);
    Replaced(l, Advance(l, ch), [if ch.ok then Install(w.rec, w.manager) else PutFailed(w.rec)]);
  }

  lemma InstallOk(l: Life, ch: Choice)
    requires LifeInv(l) && l.todo != [] && l.todo[0].Install?
    ensures LifeInv(Advance(l, ch))
  {
    assert WorkOk(l, l.todo, 0);
    Replaced(l, Advance(l, ch), [PutConnected(l.todo[0].rec)]);
  }

  lemma PutConnectedOk(l: Life, ch: Choice)
    requires LifeInv(l) && l.todo != [] && l.todo[0].PutConnected?
    ensures LifeInv(Advance(l, ch))
  {
    var rec := l.todo[0].rec;
    assert WorkOk(l, l.todo, 0);
    StatusPut(l, rec, Connected);
    var l' := Advance(l, ch);
    var put := PutRecord(l.store, rec.(status := Connected), Some(rec.revision));
    if ch.ok {
      assert l' == l.(store := put.value, todo := l.todo[1..]);
      Popped(l, l');
    } else {
      assert l' == l.(todo := [PutFailed(rec)] + l.todo[1..]);
      Replaced(l, l', [PutFailed(rec)]);
    }
  }

  lemma PutFailedOk(l: Life, ch: Choice)
    requires LifeInv(l) && l.todo != [] && l.todo[0].PutFailed?
    ensures LifeInv(Advance(l, ch))
  {
    var rec, status := l.todo[0].rec, if ch.needsAuth then NeedsAuthentication else Failed;
    assert WorkOk(l, l.todo, 0);
    StatusPut(l, rec, status);
    Thrown(l);
    Thrown(l.(store := PutRecord(l.store, rec.(status := status), Some(rec.revision)).value));
  }

  lemma SaveOk(l: Life, ch: Choice)
    requires LifeInv(l) && l.todo != [] && (l.todo[0].SaveRead? || l.todo[0].SaveCheck? || l.todo[0].SaveUnique?)
    ensures LifeInv(Advance(l, ch))
  {
    assert WorkOk(l, l.todo, 0);
    assert l.todo[1..] == [];
    Thrown(l);
  }

  lemma SaveSecretsOk(l: Life, ch: Choice)
    requires LifeInv(l) && l.todo != [] && l.todo[0].SaveSecrets?
    ensures LifeInv(Advance(l, ch))
  {
    assert WorkOk(l, l.todo, 0);
    assert l.todo[1..] == [];
    Thrown(l);
    if ch.ok {
      var saved := l.todo[0].draft.(config := ch.config);
      assert Advance(l, ch).todo == [Drop(saved.id), Put(saved, l.todo[0].expected), AfterSave(saved)];
    }
  }

  lemma AfterSaveOk(l: Life, ch: Choice)
    requires LifeInv(l) && l.todo != [] && l.todo[0].AfterSave?
    ensures LifeInv(Advance(l, ch))
  {
    assert WorkOk(l, l.todo, 0);
    assert l.todo[1..] == [];
  }

  lemma DropOk(l: Life, ch: Choice)
    requires LifeInv(l) && l.todo != [] && (l.todo[0].Drop? || l.todo[0].DropIfStale?)
    ensures LifeInv(Advance(l, ch))
  {
    var id := l.todo[0].id;
    WithoutSession(l, id);
    var dropped := l.(managers := l.managers - {id});
    Thrown(dropped);
    var l' := Advance(l, ch);
    if l'.todo == l.todo[1..] {
      Popped(l, l');
    }
  }

  lemma PutOk(l: Life, ch: Choice)
    requires LifeInv(l) && l.todo != [] && l.todo[0].Put?
    ensures LifeInv(Advance(l, ch))
  {
    var rec := l.todo[0].rec;
    assert WorkOk(l, l.todo, 0);
    Thrown(l);
    if PutRecord(l.store, rec, l.todo[0].expected).Some? && ch.ok {
      var l' := Advance(l, ch);
      assert l'.todo == l.todo[1..];
      assert |l.todo| > 1 ==> l'.todo == [AfterSave(rec)];
    }
  }

  lemma DeleteOk(l: Life, ch: Choice)
    requires LifeInv(l) && l.todo != [] && l.todo[0].Delete?
    ensures LifeInv(Advance(l, ch))
  {
    assert WorkOk(l, l.todo, 0);
    Thrown(l);
    if ch.ok {
      assert Advance(l, ch).todo == [Revoke];
    }
  }

  lemma SimpleOk(l: Life, ch: Choice)
    requires LifeInv(l) && l.todo != [] && (l.todo[0].Revoke? || l.todo[0].CheckActive?)
    ensures LifeInv(Advance(l, ch))
  {
    Thrown(l);
    if Advance(l, ch).todo == l.todo[1..] {
      Popped(l, Advance(l, ch));
    }
  }

  lemma DisconnectReadOk(l: Life, ch: Choice)
    requires LifeInv(l) && l.todo != [] && l.todo[0].DisconnectRead?
    ensures LifeInv(Advance(l, ch))
  {
    assert WorkOk(l, l.todo, 0);
    assert l.todo[1..] == [];
    Thrown(l);
    var id := l.todo[0].id;
    if id in l.store {
      var rec := l.store[id].(status := Disconnected);
      assert Advance(l, ch).todo == [Drop(id), Put(rec, Some(rec.revision))];
    }
  }

  lemma RemoveReadOk(l: Life, ch: Choice)
    requires LifeInv(l) && l.todo != [] && l.todo[0].RemoveRead?
    ensures LifeInv(Advance(l, ch))
  {
    assert WorkOk(l, l.todo, 0);
    assert l.todo[1..] == [];
    Thrown(l);
    var id := l.todo[0].id;
    if id in l.store {
      assert Advance(l, ch).todo == [Drop(id), Delete(id), Revoke];
    }
  }

  lemma ReconcileListOk(l: Life, ch: Choice)
    requires LifeInv(l) && l.todo != [] && l.todo[0].ReconcileList?
    ensures LifeInv(Advance(l, ch))
  {
    Thrown(l);
    if !l.disposed && Lists(l, ch) {
      var l' := Advance(l, ch);
      forall k | 0 <= k < |l'.todo| ensures WorkOk(l', l'.todo, k) {
        if k >= |ch.ids| {
          var r := ch.recs[k - |ch.ids|];
          assert r in (set x | x in ch.recs);
          assert r in l.store.Values;
          assert l'.todo[k] == ReconcileOne(r);
        }
      }
    }
  }

  lemma ReconcileOneOk(l: Life, ch: Choice)
    requires LifeInv(l) && l.todo != [] && l.todo[0].ReconcileOne?
    ensures LifeInv(Advance(l, ch))
  {
    assert WorkOk(l, l.todo, 0);
    Thrown(l);
    var rec := l.todo[0].rec;
    if ch.ok && rec.config.enabled && rec.status != Disconnected {
      Replaced(l, Advance(l, ch), [ConnectList(rec)]);
    } else if ch.ok {
      assert Advance(l, ch).todo == l.todo[1..];
      Popped(l, Advance(l, ch));
    }
  }

  lemma DisposeAllOk(l: Life, ch: Choice)
    requires LifeInv(l) && l.todo != [] && l.todo[0].DisposeAll?
    ensures LifeInv(Advance(l, ch))
  {
  }

  lemma AdvanceKeeps(l: Life, ch: Choice)
    requires LifeInv(l)
    ensures LifeInv(Advance(l, ch))
  {
    if l.todo != [] {
      match l.todo[0] {
        case SaveRead(_, _) => SaveOk(l, ch);
        case SaveCheck(_, _, _) => SaveOk(l, ch);
        case SaveUnique(_, _, _) => SaveOk(l, ch);
        case SaveSecrets(_, _) => SaveSecretsOk(l, ch);
        case Drop(_) => DropOk(l, ch);
        case Put(_, _) => PutOk(l, ch);
        case AfterSave(_) => AfterSaveOk(l, ch);
        case Delete(_) => DeleteOk(l, ch);
        case Revoke => SimpleOk(l, ch);
        case CheckActive => SimpleOk(l, ch);
        case ConnectRead(_) => ConnectReadOk(l, ch);
        case ConnectList(_) => ConnectListOk(l, ch);
        case ConnectCheck(_, _) => ConnectCheckOk(l, ch);
        case ConnectPut(_) => ConnectPutOk(l, ch);
        case ConnectWait(_, _) => ConnectWaitOk(l, ch);
        case Install(_, _) => InstallOk(l, ch);
        case PutConnected(_) => PutConnectedOk(l, ch);
        case PutFailed(_) => PutFailedOk(l, ch);
        case DisconnectRead(_) => DisconnectReadOk(l, ch);
        case RemoveRead(_) => RemoveReadOk(l, ch);
        case ReconcileList => ReconcileListOk(l, ch);
        case DropIfStale(_, _) => DropOk(l, ch);
        case ReconcileOne(_) => ReconcileOneOk(l, ch);
        case DisposeAll => DisposeAllOk(l, ch);
      }
    }
  }

  /** Whatever is called, in whatever order and however it ends, live sessions match the store. */
  lemma MoveKeeps(l: Life, m: Move)
    requires LifeInv(l)
    ensures LifeInv(Moved(l, m))
  {
    match m {
      case Request(op) =>
        forall k | 0 <= k < |l.todo| ensures WorkOk(Moved(l, m), l.todo, k) { assert WorkOk(l, l.todo, k); }
      case Beginning =>
        if l.todo == [] && l.waiting != [] {
          assert Moved(l, m).todo == Program(l.waiting[0]);
        }
      case Advancing(ch) => AdvanceKeeps(l, ch);
    }
  }

  // ------------------------------------------------------- sessions never come back

  predicate Carries(w: Work, manager: nat) {
    (w.ConnectWait? || w.Install?) && w.manager == manager
  }

  predicate NoneCarries(todo: seq<Work>, manager: nat) {
    forall k :: 0 <= k < |todo| ==> !Carries(todo[k], manager)
  }

  predicate NotLive(managers: map<string, Live>, manager: nat) {
    forall id :: id in managers ==> managers[id].manager != manager
  }

  predicate IsLive(l: Life, manager: nat) {
    !NotLive(l.managers, manager)
  }

  /** The session was made, and no pending work will make it live. */
  predicate Uncarried(l: Life, manager: nat) {
    manager < l.nextManager && NoneCarries(l.todo, manager)
  }

  /** The session is neither live nor on its way to be. */
  predicate Gone(l: Life, manager: nat) {
    NotLive(l.managers, manager) && Uncarried(l, manager)
  }

  /** No two connections share a session; at most the work at hand carries one, and it is not live. */
  ghost predicate SessionsApart(l: Life) {
    && (forall i, j :: i in l.managers && j in l.managers && i != j ==> l.managers[i].manager != l.managers[j].manager)
    && (forall k :: 0 < k < |l.todo| ==> !l.todo[k].ConnectWait? && !l.todo[k].Install?)
    && (l.todo != [] && (l.todo[0].ConnectWait? || l.todo[0].Install?) ==> NotLive(l.managers, l.todo[0].manager))
  }

  predicate Enumerates(w: Work) { w.ReconcileList? || w.DisposeAll? }

  // Every stretch, for the sessions' being apart, and for one session that nothing carries.

  predicate NoneConnecting(todo: seq<Work>) {
    forall k :: 0 <= k < |todo| ==> !todo[k].ConnectWait? && !todo[k].Install?
  }

  lemma FewerApart(l: Life, l': Life)
    requires SessionsApart(l) && NoneConnecting(l'.todo)
    requires forall id :: id in l'.managers ==> id in l.managers && l'.managers[id] == l.managers[id]
    ensures SessionsApart(l')
  {
  }

  /** A session goes live under the number carried, which no other connection has. */
  lemma InstallKeepsApart(l: Life, ch: Choice)
    requires LifeInv(l) && SessionsApart(l) && l.todo != [] && l.todo[0].Install? && NoneConnecting(l.todo[1..])
    ensures SessionsApart(ConnectStretch(l, l.todo[1..], l.todo[0], ch))
  {
  }

  /** The number a connection is made with is one that no session has yet. */
  lemma MintKeepsApart(l: Life, ch: Choice)
    requires LifeInv(l) && SessionsApart(l) && l.todo != [] && (l.todo[0].ConnectPut? || l.todo[0].ConnectWait?)
    requires NoneConnecting(l.todo[1..])
    ensures SessionsApart(ConnectStretch(l, l.todo[1..], l.todo[0], ch))
  {
  }

  lemma ConnectKeepsApart(l: Life, ch: Choice)
    requires LifeInv(l) && SessionsApart(l) && l.todo != [] && InConnect(l.todo[0]) && NoneConnecting(l.todo[1..])
    ensures SessionsApart(ConnectStretch(l, l.todo[1..], l.todo[0], ch))
  {
    if l.todo[0].Install? {
      InstallKeepsApart(l, ch);
    } else if l.todo[0].ConnectPut? || l.todo[0].ConnectWait? {
      MintKeepsApart(l, ch);
    } else {
      FewerApart(l, ConnectStretch(l, l.todo[1..], l.todo[0], ch));
    }
  }

  lemma SaveKeepsApart(l: Life, ch: Choice)
    requires SessionsApart(l) && l.todo != [] && InSave(l.todo[0]) && NoneConnecting(l.todo[1..])
    ensures SessionsApart(SaveStretch(l, l.todo[1..], l.todo[0], ch))
  {
    FewerApart(l, SaveStretch(l, l.todo[1..], l.todo[0], ch));
  }

  lemma StoreKeepsApart(l: Life, ch: Choice)
    requires SessionsApart(l) && l.todo != [] && !InConnect(l.todo[0]) && !InSave(l.todo[0]) && NoneConnecting(l.todo[1..])
    ensures SessionsApart(StoreStretch(l, l.todo[1..], l.todo[0], ch))
  {
    StoreConnectsNothing(l, l.todo[1..], l.todo[0], ch);
    FewerApart(l, StoreStretch(l, l.todo[1..], l.todo[0], ch));
  }

  lemma StoreConnectsNothing(l: Life, rest: seq<Work>, w: Work, ch: Choice)
    requires !InConnect(w) && !InSave(w) && NoneConnecting(rest)
    ensures var l' := StoreStretch(l, rest, w, ch);
            (l' == l || NoneConnecting(l'.todo))
            && forall id :: id in l'.managers ==> id in l.managers && l'.managers[id] == l.managers[id]
  {
    if w.ReconcileList? {
      assert NoneConnecting(DropsFor(l, ch.ids) + OnesFor(ch.recs));
    }
  }

  lemma MoveKeepsApart(l: Life, m: Move)
    requires LifeInv(l) && SessionsApart(l)
    ensures SessionsApart(Moved(l, m))
  {
    if m.Advancing? && l.todo != [] {
      assert NoneConnecting(l.todo[1..]);
      if InConnect(l.todo[0]) {
        ConnectKeepsApart(l, m.ch);
      } else if InSave(l.todo[0]) {
        SaveKeepsApart(l, m.ch);
      } else {
        StoreKeepsApart(l, m.ch);
      }
    }
  }

  lemma ConnectKeepsUncarried(l: Life, ch: Choice, manager: nat)
    requires Uncarried(l, manager) && l.todo != [] && InConnect(l.todo[0]) && NoneCarries(l.todo[1..], manager)
    ensures Uncarried(ConnectStretch(l, l.todo[1..], l.todo[0], ch), manager)
    ensures NotLive(l.managers, manager) ==> NotLive(ConnectStretch(l, l.todo[1..], l.todo[0], ch).managers, manager)
  {
    assert !Carries(l.todo[0], manager);
  }

  lemma SaveKeepsUncarried(l: Life, ch: Choice, manager: nat)
    requires Uncarried(l, manager) && l.todo != [] && InSave(l.todo[0]) && NoneCarries(l.todo[1..], manager)
    ensures Uncarried(SaveStretch(l, l.todo[1..], l.todo[0], ch), manager)
    ensures SaveStretch(l, l.todo[1..], l.todo[0], ch).managers == l.managers
  {
  }

  lemma StoreKeepsUncarried(l: Life, ch: Choice, manager: nat)
    requires Uncarried(l, manager) && l.todo != [] && !InConnect(l.todo[0]) && !InSave(l.todo[0]) && !Enumerates(l.todo[0])
    requires NoneCarries(l.todo[1..], manager)
    ensures Uncarried(StoreStretch(l, l.todo[1..], l.todo[0], ch), manager)
    ensures NotLive(l.managers, manager) ==> NotLive(StoreStretch(l, l.todo[1..], l.todo[0], ch).managers, manager)
  {
  }

  lemma ListsKeepUncarried(l: Life, ch: Choice, manager: nat)
    requires Uncarried(l, manager) && l.todo != [] && Enumerates(l.todo[0])
    ensures Uncarried(StoreStretch(l, l.todo[1..], l.todo[0], ch), manager)
    ensures StoreStretch(l, l.todo[1..], l.todo[0], ch).managers == l.managers
  {
    var drops, ones := DropsFor(l, ch.ids), OnesFor(ch.recs);
    assert NoneCarries(drops + ones, manager);
  }

  lemma MoveKeepsUncarried(l: Life, m: Move, manager: nat)
    requires Uncarried(l, manager)
    ensures Uncarried(Moved(l, m), manager)
    ensures NotLive(l.managers, manager) ==> NotLive(Moved(l, m).managers, manager)
  {
    if m.Advancing? && l.todo != [] {
      var w := l.todo[0];
      assert NoneCarries(l.todo[1..], manager);
      if InConnect(w) {
        ConnectKeepsUncarried(l, m.ch, manager);
      } else if InSave(w) {
        SaveKeepsUncarried(l, m.ch, manager);
      } else if Enumerates(w) {
        ListsKeepUncarried(l, m.ch, manager);
      } else {
        StoreKeepsUncarried(l, m.ch, manager);
      }
    }
  }

  lemma LiveIsUncarried(l: Life, manager: nat)
    requires LifeInv(l) && SessionsApart(l) && IsLive(l, manager)
    ensures Uncarried(l, manager)
  {
    var id :| id in l.managers && l.managers[id].manager == manager;
    forall k | 0 <= k < |l.todo| ensures !Carries(l.todo[k], manager) {
      assert !NotLive(l.managers, manager);
    }
  }

  /** A session that was live and is not any more, whatever dropped it, is gone. */
  lemma DroppedIsGone(l: Life, m: Move, manager: nat)
    requires LifeInv(l) && SessionsApart(l) && IsLive(l, manager) && !IsLive(Moved(l, m), manager)
    ensures Gone(Moved(l, m), manager)
  {
    LiveIsUncarried(l, manager);
    MoveKeepsUncarried(l, m, manager);
  }

  /** A session that is gone is never live again: connecting anew makes a new one. */
  lemma GoneForever(l: Life, m: Move, manager: nat)
    requires Gone(l, manager)
    ensures Gone(Moved(l, m), manager)
  {
    MoveKeepsUncarried(l, m, manager);
  }

  // ------------------------------------------------- the store changes behind no session

  /** The record is another one, or not there any more. */
  predicate Changed(l: Life, l': Life, id: string) {
    id in l.store && !(id in l'.store && MarkOf(l'.store[id]) == MarkOf(l.store[id]))
  }

  /** No stored record is exchanged or removed while its session is live. */
  lemma DroppedBeforeChanged(l: Life, m: Move, id: string)
    requires LifeInv(l) && Changed(l, Moved(l, m), id)
    ensures id !in l.managers && id !in Moved(l, m).managers
  {
    var ch := m.ch;
    var w := l.todo[0];
    assert WorkOk(l, l.todo, 0);
    if InConnect(w) {
      ConnectKeepsMarks(l, ch, id);
    }
  }

  lemma ConnectKeepsMarks(l: Life, ch: Choice, id: string)
    requires LifeInv(l) && l.todo != [] && InConnect(l.todo[0]) && id in l.store
    ensures var l' := ConnectStretch(l, l.todo[1..], l.todo[0], ch);
            id in l'.store && MarkOf(l'.store[id]) == MarkOf(l.store[id])
  {
    assert WorkOk(l, l.todo, 0);
  }
}
