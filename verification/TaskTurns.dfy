/**
 Which orders of hand-outs keep the events of one attempt together, if an attempt may be leased more
 than once.
 */
module TaskTurns {
  import opened Wrappers
  import opened TaskModel
  import opened TaskRuns
  import opened TaskHistory

  /** The attempts a task was leased to, in the order of the leases. */
  function Order(handed: seq<Lease>, id: TaskId): seq<AttemptId> {
    if handed == [] then []
    else
      var last := handed[|handed| - 1];
      Order(handed[..|handed| - 1], id) + if last.taskId == id then [last.attemptId] else []
  }

  /** No attempt comes back after another one had its turn. */
  ghost predicate InTurns(order: seq<AttemptId>) {
    forall i, j, k :: 0 <= i <= j <= k < |order| && order[i] == order[k] ==> order[j] == order[i]
  }

  /** The events of each attempt stand together. */
  ghost predicate Together(tags: seq<Tag>) {
    forall i, j, k :: 0 <= i <= j <= k < |tags| && tags[i].attemptId == tags[k].attemptId ==>
                      tags[j].attemptId == tags[i].attemptId
  }

  // ------------------------------------------------------------- together if in turns

  lemma {:induction false} OrderGrows(handed: seq<Lease>, id: TaskId, n: nat)
    requires n <= |handed|
    ensures Order(handed[..n], id) <= Order(handed, id)
  {
    if n == |handed| {
      assert handed[..n] == handed;
    } else {
      var front := handed[..|handed| - 1];
      OrderGrows(front, id, n);
      assert front[..n] == handed[..n];
    }
  }

  /** The place of a lease in the order of its task. */
  lemma PlaceOf(handed: seq<Lease>, id: TaskId, a: nat) returns (place: nat)
    requires a < |handed| && handed[a].taskId == id
    ensures place == |Order(handed[..a], id)| < |Order(handed, id)| && Order(handed, id)[place] == handed[a].attemptId
  {
    place := |Order(handed[..a], id)|;
    var upto := handed[..a + 1];
    assert upto[..a] == handed[..a] && upto[a] == handed[a];
    OrderGrows(handed, id, a + 1);
  }

  lemma PlacesRise(handed: seq<Lease>, id: TaskId, a: nat, b: nat)
    requires a <= b <= |handed|
    ensures |Order(handed[..a], id)| <= |Order(handed[..b], id)|
  {
    assert handed[..b][..a] == handed[..a];
    OrderGrows(handed[..b], id, a);
  }

  /** The hand-out a tag comes from; a tag further on comes from a later one. */
  lemma LeaseOf(w: World, id: TaskId, tag: Tag) returns (a: nat)
    requires FromLease(w, id, tag)
    ensures a < |w.handed| && w.handed[a].taskId == id && tag == Tag(w.handed[a].fencing, w.handed[a].attemptId)
  {
    a :| 0 <= a < |w.handed| && w.handed[a].taskId == id && tag == Tag(w.handed[a].fencing, w.handed[a].attemptId);
  }

  lemma TogetherInTurns(w: World, id: TaskId)
    requires LeaseHistory(w) && id in w.tags && id in w.s.events && Tagged(w, id) && InTurns(Order(w.handed, id))
    ensures Together(w.tags[id])
  {
    var tags, order := w.tags[id], Order(w.handed, id);
    forall i, j, k | 0 <= i <= j <= k < |tags| && tags[i].attemptId == tags[k].attemptId
      ensures tags[j].attemptId == tags[i].attemptId
    {
      var a := LeaseOf(w, id, tags[i]);
      var b := LeaseOf(w, id, tags[j]);
      var c := LeaseOf(w, id, tags[k]);
      assert w.handed[a].fencing <= w.handed[b].fencing <= w.handed[c].fencing;
      assert a <= b <= c;
      PlacesRise(w.handed, id, a, b);
      PlacesRise(w.handed, id, b, c);
      var x := PlaceOf(w.handed, id, a);
      var y := PlaceOf(w.handed, id, b);
      var z := PlaceOf(w.handed, id, c);
      assert order[x] == order[z] ==> order[y] == order[x];
    }
  }

  // ------------------------------------------------------------------- one after the other

  function Name(n: nat): string {
    if n == 0 then "" else Name(n - 1) + "x"
  }

  lemma {:induction false} NameLength(n: nat)
    ensures |Name(n)| == n
  {
    if n > 0 {
      NameLength(n - 1);
    }
  }

  function Created(id: TaskId): Entry {
    Entry(Create(CreateInput(id, "", "", false, 0, None, "", None, [])), 0)
  }

  function Leased(id: TaskId, attemptId: AttemptId, n: nat): Entry {
    Entry(Acquire(AcquireInput(id, attemptId, "", 1), Name(n), false), 0)
  }

  function Written(id: TaskId, n: nat): Entry {
    Entry(Append(id, [Event(Name(n), n - 1, "")], Name(n)), 0)
  }

  /** One task, leased to these attempts in turn, each of which appends one event. */
  function Relay(id: TaskId, order: seq<AttemptId>): seq<Entry> {
    if order == [] then [Created(id)]
    else (Relay(id, order[..|order| - 1]) + [Leased(id, order[|order| - 1], |order|)]) + [Written(id, |order|)]
  }

  /** The world at the end of it. */
  ghost predicate Relayed(w: World, id: TaskId, order: seq<AttemptId>) {
    && w.now == 0 && w.s.fencing == |w.handed| == |order| == |Log(w.s, id)| == |TagsOf(w, id)|
    && (forall i :: 0 <= i < |order| ==> w.handed[i] == Lease(id, order[i], "", Name(i + 1), i + 1, 1))
    && (forall i :: 0 <= i < |order| ==> Log(w.s, id)[i] == Event(Name(i + 1), i, ""))
    && (forall i :: 0 <= i < |order| ==> TagsOf(w, id)[i].attemptId == order[i])
  }

  lemma {:induction false} RunMore(cfg: Config, w: World, run: seq<Entry>, a: Entry)
    requires Sound(cfg)
    ensures Run(cfg, w, run + [a]) == Next(cfg, Run(cfg, w, run), a)
    ensures FairRun(cfg, w, run + [a]) <==> FairRun(cfg, w, run) && Fair(Run(cfg, w, run), a)
    decreases run
  {
    var all := run + [a];
    if run == [] {
      assert all[1..] == [];
    } else {
      assert all[1..] == run[1..] + [a];
      RunMore(cfg, Next(cfg, w, run[0]), run[1..], a);
    }
  }

  lemma TurnIsFair(w: World, id: TaskId, order: seq<AttemptId>, attemptId: AttemptId)
    requires Relayed(w, id, order)
    ensures Fair(w, Leased(id, attemptId, |order| + 1))
  {
    NameLength(|order| + 1);
    forall i | 0 <= i < |w.handed| ensures w.handed[i].token != Name(|order| + 1) {
      NameLength(i + 1);
    }
  }

  lemma TurnLeases(cfg: Config, w: World, id: TaskId, attemptId: AttemptId, n: nat)
    requires Sound(cfg) && w.s.fencing + 1 == n
    ensures var w' := Next(cfg, w, Leased(id, attemptId, n));
            && w'.now == 0 && w'.s.fencing == n
            && w'.handed == w.handed + [Lease(id, attemptId, "", Name(n), n, 1)]
            && w'.s.events == w.s.events && w'.s.eventIds == w.s.eventIds && w'.tags == w.tags
            && id in w'.s.leases && w'.s.leases[id] == Lease(id, attemptId, "", Name(n), n, 1)
  {
  }

  lemma TurnFits(log: seq<Event>, ids: set<EventId>)
    requires ids == IdsOf(log) && forall i :: 0 <= i < |log| ==> log[i] == Event(Name(i + 1), i, "")
    ensures Appendable(LastSeq(log), ids, [Event(Name(|log| + 1), |log|, "")])
  {
    var batch := [Event(Name(|log| + 1), |log|, "")];
    NameLength(|log| + 1);
    forall i | 0 <= i < |log| ensures log[i].id != Name(|log| + 1) {
      NameLength(i + 1);
    }
    assert batch[1..] == [];
  }

  lemma TurnAppends(cfg: Config, w: World, id: TaskId, attemptId: AttemptId, n: nat)
    requires Sound(cfg) && n >= 1
    requires id in w.s.leases && w.s.leases[id] == Lease(id, attemptId, "", Name(n), n, 1)
    requires Appendable(LastSeq(Log(w.s, id)), LogIds(w.s, id), [Event(Name(n), n - 1, "")])
    ensures var w' := Next(cfg, w, Written(id, n));
            && w'.now == 0 && w'.handed == w.handed && w'.s.fencing == w.s.fencing
            && Log(w'.s, id) == Log(w.s, id) + [Event(Name(n), n - 1, "")]
            && TagsOf(w', id) == TagsOf(w, id) + [Tag(n, attemptId)]
  {
    assert Current(w.s, id, Name(n), 0);
    assert Accepted(w.s, Written(id, n).op, 0);
    AcceptedIs(cfg, w, Written(id, n));
  }

  lemma RelayedMore(w: World, w': World, id: TaskId, order: seq<AttemptId>, attemptId: AttemptId)
    requires Relayed(w, id, order) && w'.now == 0 && w'.s.fencing == |order| + 1
    requires w'.handed == w.handed + [Lease(id, attemptId, "", Name(|order| + 1), |order| + 1, 1)]
    requires Log(w'.s, id) == Log(w.s, id) + [Event(Name(|order| + 1), |order|, "")]
    requires TagsOf(w', id) == TagsOf(w, id) + [Tag(|order| + 1, attemptId)]
    ensures Relayed(w', id, order + [attemptId])
  {
  }

  lemma OneTurn(cfg: Config, w: World, id: TaskId, order: seq<AttemptId>, attemptId: AttemptId)
    requires Sound(cfg) && Inv(w) && Relayed(w, id, order)
    ensures var a, b := Leased(id, attemptId, |order| + 1), Written(id, |order| + 1);
            && Fair(w, a) && Fair(Next(cfg, w, a), b)
            && Relayed(Next(cfg, Next(cfg, w, a), b), id, order + [attemptId])
  {
    var n := |order| + 1;
    var mid := Next(cfg, w, Leased(id, attemptId, n));
    TurnIsFair(w, id, order, attemptId);
    TurnLeases(cfg, w, id, attemptId, n);
    assert LogIds(w.s, id) == IdsOf(Log(w.s, id));
    TurnFits(Log(w.s, id), LogIds(w.s, id));
    TurnAppends(cfg, mid, id, attemptId, n);
    RelayedMore(w, Next(cfg, mid, Written(id, n)), id, order, attemptId);
  }

  lemma TurnRuns(cfg: Config, run: seq<Entry>, id: TaskId, order: seq<AttemptId>, attemptId: AttemptId)
    requires Sound(cfg) && FairRun(cfg, FRESH_WORLD, run) && Relayed(Run(cfg, FRESH_WORLD, run), id, order)
    ensures var longer := (run + [Leased(id, attemptId, |order| + 1)]) + [Written(id, |order| + 1)];
            FairRun(cfg, FRESH_WORLD, longer) && Relayed(Run(cfg, FRESH_WORLD, longer), id, order + [attemptId])
  {
    var a, b := Leased(id, attemptId, |order| + 1), Written(id, |order| + 1);
    RunKeepsInv(cfg, FRESH_WORLD, run);
    OneTurn(cfg, Run(cfg, FRESH_WORLD, run), id, order, attemptId);
    RunMore(cfg, FRESH_WORLD, run, a);
    RunMore(cfg, FRESH_WORLD, run + [a], b);
  }

  lemma RelayStarts(cfg: Config, id: TaskId)
    requires Sound(cfg)
    ensures FairRun(cfg, FRESH_WORLD, [Created(id)]) && Relayed(Run(cfg, FRESH_WORLD, [Created(id)]), id, [])
  {
    assert [Created(id)][1..] == [];
  }

  lemma {:induction false} RelayRuns(cfg: Config, id: TaskId, order: seq<AttemptId>)
    requires Sound(cfg)
    ensures FairRun(cfg, FRESH_WORLD, Relay(id, order))
    ensures Relayed(Run(cfg, FRESH_WORLD, Relay(id, order)), id, order)
    decreases |order|
  {
    if order == [] {
      RelayStarts(cfg, id);
    } else {
      var front := order[..|order| - 1];
      RelayRuns(cfg, id, front);
      TurnRuns(cfg, Relay(id, front), id, front, order[|order| - 1]);
      assert front + [order[|order| - 1]] == order;
    }
  }

  lemma {:induction false} OrderOfRelay(handed: seq<Lease>, id: TaskId, order: seq<AttemptId>)
    requires |handed| == |order|
    requires forall i :: 0 <= i < |order| ==> handed[i].taskId == id && handed[i].attemptId == order[i]
    ensures Order(handed, id) == order
    decreases |order|
  {
    if order != [] {
      OrderOfRelay(handed[..|order| - 1], id, order[..|order| - 1]);
      assert order == order[..|order| - 1] + [order[|order| - 1]];
    }
  }

  // --------------------------------------------------------------------- the theorem

  /** Every fair run that leases the task to these attempts, in this order, keeps the events of each
      attempt together. */
  ghost predicate KeepsTogether(cfg: Config, id: TaskId, order: seq<AttemptId>)
    requires Sound(cfg)
  {
    forall run :: FairRun(cfg, FRESH_WORLD, run) && Order(Run(cfg, FRESH_WORLD, run).handed, id) == order ==>
                  Together(TagsOf(Run(cfg, FRESH_WORLD, run), id))
  }

  /** The events of one attempt stand together, in whatever run, exactly if no attempt is leased again
      after another one had its turn. */
  lemma TogetherIffInTurns(cfg: Config, id: TaskId, order: seq<AttemptId>)
    requires Sound(cfg)
    ensures KeepsTogether(cfg, id, order) <==> InTurns(order)
  {
    if InTurns(order) {
      forall run | FairRun(cfg, FRESH_WORLD, run) && Order(Run(cfg, FRESH_WORLD, run).handed, id) == order
        ensures Together(TagsOf(Run(cfg, FRESH_WORLD, run), id))
      {
        RunKeepsInv(cfg, FRESH_WORLD, run);
        if id in Run(cfg, FRESH_WORLD, run).tags {
          TogetherInTurns(Run(cfg, FRESH_WORLD, run), id);
        }
      }
    } else {
      var w := Run(cfg, FRESH_WORLD, Relay(id, order));
      RelayRuns(cfg, id, order);
      OrderOfRelay(w.handed, id, order);
      var i, j, k :| 0 <= i <= j <= k < |order| && order[i] == order[k] && order[j] != order[i];
      assert TagsOf(w, id)[i].attemptId == order[i] && TagsOf(w, id)[j].attemptId == order[j]
             && TagsOf(w, id)[k].attemptId == order[k];
    }
  }
}
