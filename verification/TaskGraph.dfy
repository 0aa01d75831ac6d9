/**
 The graph of dependencies and parents: when creating a task closes a cycle, which runs stay
 without one, and that such a queue never locks up.
 */
module TaskGraph {
  import opened Wrappers
  import opened TaskModel
  import opened TaskClaim
  import opened ClaimProofs
  import opened TaskFrames
  import opened TaskRuns
  import opened TaskHistory

  predicate LinksTo(task: Task, other: TaskId) {
    other in task.dependsOn || task.parent == Some(other)
  }

  predicate Asks(input: CreateInput, d: TaskId) {
    d in input.dependsOn || input.parent == Some(d)
  }

  ghost predicate LinksInto(s: Store, m: TaskId, ids: set<TaskId>)
    requires m in s.tasks
  {
    exists d :: d in ids && LinksTo(s.tasks[m], d)
  }

  /** A member of `ids` that links to no member of `ids`. */
  ghost predicate HasSource(s: Store, ids: set<TaskId>) {
    exists m :: m in ids && m in s.tasks && !LinksInto(s, m, ids)
  }

  /** No set of tasks links only into itself. */
  ghost predicate Acyclic(s: Store) {
    forall ids: set<TaskId> :: ids != {} && ids <= s.tasks.Keys ==> HasSource(s, ids)
  }

  // ------------------------------------------------------------- one creation

  /** Present tasks, each linking to the next, from one that the new task asks for. */
  ghost predicate Route(s: Store, path: seq<TaskId>, input: CreateInput) {
    && path != [] && Asks(input, path[0])
    && (forall i :: 0 <= i < |path| ==> path[i] in s.tasks)
    && (forall i, j :: 0 <= i && j == i + 1 && j < |path| ==> LinksTo(s.tasks[path[i]], path[j]))
  }

  /** A route that ends in a link to the new task itself: one that dangles, since its id names no
      task yet. */
  ghost predicate Chain(s: Store, path: seq<TaskId>, input: CreateInput) {
    Route(s, path, input) && LinksTo(s.tasks[path[|path| - 1]], input.taskId)
  }

  ghost predicate ClosesCycle(s: Store, input: CreateInput) {
    exists path :: Chain(s, path, input)
  }

  /** `e` is `s` with the task created. */
  ghost predicate Created(s: Store, e: Store, input: CreateInput) {
    && input.taskId !in s.tasks && input.taskId in e.tasks && e.tasks == s.tasks[input.taskId := e.tasks[input.taskId]]
    && forall d :: LinksTo(e.tasks[input.taskId], d) <==> Asks(input, d)
  }

  lemma {:induction false} GoodDependencies(s: Store, self: TaskId, deps: seq<TaskId>)
    ensures BadDependency(s, self, deps).None? <==> forall d :: d in deps ==> d != self && d in s.tasks
  {
    if deps != [] {
      GoodDependencies(s, self, deps[1..]);
      assert deps[0] in deps && forall d :: d in deps <==> d == deps[0] || d in deps[1..];
    }
  }

  lemma CreateIs(s: Store, input: CreateInput, now: int)
    ensures var (e, answer) := CreateTask(s, input, now);
            if answer.Ok? then Created(s, e, input) && !Asks(input, input.taskId) else e == s
  {
    GoodDependencies(s, input.taskId, input.dependsOn);
  }

  lemma ChainLinksBack(s: Store, e: Store, input: CreateInput, path: seq<TaskId>)
    requires Created(s, e, input) && Chain(s, path, input)
    ensures !Acyclic(e)
  {
    var ids := {input.taskId} + set x | x in path;
    assert path[0] in path && LinksTo(e.tasks[input.taskId], path[0]);
    assert LinksInto(e, input.taskId, ids);
    forall i | 0 <= i < |path| ensures path[i] in e.tasks && LinksInto(e, path[i], ids) {
      ChainStep(s, e, input, path, i);
    }
    assert ids <= e.tasks.Keys && !HasSource(e, ids);
  }

  lemma ChainStep(s: Store, e: Store, input: CreateInput, path: seq<TaskId>, i: nat)
    requires Created(s, e, input) && Chain(s, path, input) && i < |path|
    ensures path[i] in e.tasks && LinksInto(e, path[i], {input.taskId} + set x | x in path)
  {
    assert e.tasks[path[i]] == s.tasks[path[i]];
    var next := if i + 1 < |path| then path[i + 1] else input.taskId;
    assert LinksTo(s.tasks[path[i]], next);
    assert i + 1 < |path| ==> path[i + 1] in path;
  }

  ghost predicate Reached(s: Store, input: CreateInput, x: TaskId) {
    exists path :: Route(s, path, input) && path[|path| - 1] == x
  }

  lemma ReachedNext(s: Store, input: CreateInput, x: TaskId, y: TaskId)
    requires Reached(s, input, x) && LinksTo(s.tasks[x], y)
    ensures y == input.taskId ==> ClosesCycle(s, input)
    ensures y in s.tasks ==> Reached(s, input, y)
  {
    var path :| Route(s, path, input) && path[|path| - 1] == x;
    if y == input.taskId {
      assert Chain(s, path, input);
    }
    if y in s.tasks {
      assert Route(s, path + [y], input);
    }
  }

  /** The members of `ids` that the new task reaches through present tasks would link only among
      themselves. */
  lemma NoChainKeepsSource(s: Store, e: Store, input: CreateInput, ids: set<TaskId>)
    requires Acyclic(s) && Created(s, e, input) && !Asks(input, input.taskId) && !ClosesCycle(s, input)
    requires ids != {} && ids <= e.tasks.Keys
    ensures HasSource(e, ids)
  {
    var self := input.taskId;
    if self !in ids {
      assert HasSource(s, ids);
      var m :| m in ids && m in s.tasks && !LinksInto(s, m, ids);
      assert e.tasks[m] == s.tasks[m];
    } else if LinksInto(e, self, ids) {
      var reached := set x | x in ids && x != self && Reached(s, input, x);
      var d :| d in ids && LinksTo(e.tasks[self], d);
      assert Route(s, [d], input) && [d][|[d]| - 1] == d;
      assert HasSource(s, reached) by {
        assert d in reached;
      }
      var m :| m in reached && m in s.tasks && !LinksInto(s, m, reached);
      ReachedIsSource(s, e, input, ids, m, reached);
    }
  }

  lemma ReachedIsSource(s: Store, e: Store, input: CreateInput, ids: set<TaskId>, m: TaskId, reached: set<TaskId>)
    requires Created(s, e, input) && !ClosesCycle(s, input) && ids <= e.tasks.Keys
    requires forall x :: x in reached <==> x in ids && x != input.taskId && Reached(s, input, x)
    requires m in reached && m in s.tasks && !LinksInto(s, m, reached)
    ensures !LinksInto(e, m, ids)
  {
    assert e.tasks[m] == s.tasks[m];
    forall next | next in ids ensures !LinksTo(s.tasks[m], next) {
      if LinksTo(s.tasks[m], next) {
        ReachedNext(s, input, m, next);
      }
    }
  }

  /** Creating a task keeps the graph acyclic exactly when no chain of present tasks leads from
      what it asks for back to its id. */
  lemma CreateKeepsAcyclicIff(s: Store, input: CreateInput, now: int)
    requires Acyclic(s) && CreateTask(s, input, now).1.Ok?
    ensures Acyclic(CreateTask(s, input, now).0) <==> !ClosesCycle(s, input)
  {
    var e := CreateTask(s, input, now).0;
    CreateIs(s, input, now);
    if ClosesCycle(s, input) {
      var path :| Chain(s, path, input);
      ChainLinksBack(s, e, input, path);
    } else {
      forall ids: set<TaskId> | ids != {} && ids <= e.tasks.Keys ensures HasSource(e, ids) {
        NoChainKeepsSource(s, e, input, ids);
      }
    }
  }

  // --------------------------------------------------------------- every step

  ghost predicate SameLinks(s: Store, e: Store) {
    forall id :: id in e.tasks ==>
      id in s.tasks && e.tasks[id].dependsOn == s.tasks[id].dependsOn && e.tasks[id].parent == s.tasks[id].parent
  }

  lemma SameLinksStayAcyclic(s: Store, e: Store)
    requires Acyclic(s) && SameLinks(s, e)
    ensures Acyclic(e)
  {
    forall ids: set<TaskId> | ids != {} && ids <= e.tasks.Keys ensures HasSource(e, ids) {
      assert HasSource(s, ids);
      var m :| m in ids && m in s.tasks && !LinksInto(s, m, ids);
      assert forall d :: LinksTo(e.tasks[m], d) <==> LinksTo(s.tasks[m], d);
    }
  }

  lemma DeleteKeepsLinks(s: Store, scope: string)
    ensures SameLinks(s, DeleteByScope(s, scope).0)
  {
  }

  lemma StepKeepsLinks(cfg: Config, s: Store, op: Op, now: int)
    requires Sound(cfg) && WellOrdered(s) && !op.Create?
    ensures SameLinks(s, Apply(cfg, s, op, now))
  {
    match op {
      case Delete(scope) => DeleteKeepsLinks(s, scope);
      case Append(_, _, _) =>
      case _ => StepFrame(cfg, s, op, now);
    }
  }

  predicate Creates(s: Store, op: Op, now: int) {
    op.Create? && CreateTask(s, op.input, now).1.Ok?
  }

  lemma StepAcyclicIff(cfg: Config, s: Store, op: Op, now: int)
    requires Sound(cfg) && WellOrdered(s) && Acyclic(s)
    ensures Acyclic(Apply(cfg, s, op, now)) <==> !(Creates(s, op, now) && ClosesCycle(s, op.input))
  {
    if Creates(s, op, now) {
      CreateKeepsAcyclicIff(s, op.input, now);
    } else if op.Create? {
      CreateIs(s, op.input, now);
    } else {
      StepKeepsLinks(cfg, s, op, now);
      SameLinksStayAcyclic(s, Apply(cfg, s, op, now));
    }
  }

  // -------------------------------------------------------------- whole runs

  ghost predicate NeverCloses(cfg: Config, w: World, run: seq<Entry>)
    requires Sound(cfg)
    decreases run
  {
    run == []
    || (!(Creates(w.s, run[0].op, run[0].now) && ClosesCycle(w.s, run[0].op.input))
        && NeverCloses(cfg, Next(cfg, w, run[0]), run[1..]))
  }

  ghost predicate AlwaysAcyclic(cfg: Config, w: World, run: seq<Entry>)
    requires Sound(cfg)
    decreases run
  {
    Acyclic(w.s) && (run != [] ==> AlwaysAcyclic(cfg, Next(cfg, w, run[0]), run[1..]))
  }

  lemma {:induction false} RunAcyclicIff(cfg: Config, w: World, run: seq<Entry>)
    requires Sound(cfg) && WellOrdered(w.s) && Acyclic(w.s)
    ensures AlwaysAcyclic(cfg, w, run) <==> NeverCloses(cfg, w, run)
    decreases run
  {
    if run != [] {
      var w' := Next(cfg, w, run[0]);
      KeepsOrder(cfg, w.s, run[0].op, run[0].now);
      StepAcyclicIff(cfg, w.s, run[0].op, run[0].now);
      if Acyclic(w'.s) {
        RunAcyclicIff(cfg, w', run[1..]);
      } else {
        assert !AlwaysAcyclic(cfg, w', run[1..]);
      }
    }
  }

  /** The graph is acyclic in every state of a run exactly when no creation of the run closes a
      chain that was left dangling. */
  lemma GraphIsAcyclic(cfg: Config, run: seq<Entry>)
    requires Sound(cfg)
    ensures AlwaysAcyclic(cfg, FRESH_WORLD, run) <==> NeverCloses(cfg, FRESH_WORLD, run)
  {
    assert Acyclic(EMPTY);
    RunAcyclicIff(cfg, FRESH_WORLD, run);
  }

  // ------------------------------------------------------------ ids used once

  /** Every id that was ever created, and so every id that any task links to. */
  ghost predicate LinksKnown(s: Store, born: set<TaskId>) {
    && s.tasks.Keys <= born
    && forall id, d :: id in s.tasks && LinksTo(s.tasks[id], d) ==> d in born
  }

  function NextBorn(born: set<TaskId>, s: Store, op: Op, now: int): set<TaskId> {
    if Creates(s, op, now) then born + {op.input.taskId} else born
  }

  ghost predicate NeverRecreates(cfg: Config, w: World, born: set<TaskId>, run: seq<Entry>)
    requires Sound(cfg)
    decreases run
  {
    run == []
    || ((Creates(w.s, run[0].op, run[0].now) ==> run[0].op.input.taskId !in born)
        && NeverRecreates(cfg, Next(cfg, w, run[0]), NextBorn(born, w.s, run[0].op, run[0].now), run[1..]))
  }

  lemma StepKeepsLinksKnown(cfg: Config, s: Store, born: set<TaskId>, op: Op, now: int)
    requires Sound(cfg) && WellOrdered(s) && LinksKnown(s, born)
    ensures LinksKnown(Apply(cfg, s, op, now), NextBorn(born, s, op, now))
  {
    if op.Create? {
      CreateIs(s, op.input, now);
      GoodDependencies(s, op.input.taskId, op.input.dependsOn);
    } else {
      StepKeepsLinks(cfg, s, op, now);
      var e := Apply(cfg, s, op, now);
      forall id, d | id in e.tasks && LinksTo(e.tasks[id], d) ensures d in born {
        assert LinksTo(s.tasks[id], d);
      }
    }
  }

  /** A run that creates no id twice closes no chain: nothing can link to an id before its task. */
  lemma {:induction false} FreshIdsNeverClose(cfg: Config, w: World, born: set<TaskId>, run: seq<Entry>)
    requires Sound(cfg) && WellOrdered(w.s) && LinksKnown(w.s, born) && NeverRecreates(cfg, w, born, run)
    ensures NeverCloses(cfg, w, run)
    decreases run
  {
    if run != [] {
      KeepsOrder(cfg, w.s, run[0].op, run[0].now);
      StepKeepsLinksKnown(cfg, w.s, born, run[0].op, run[0].now);
      FreshIdsNeverClose(cfg, Next(cfg, w, run[0]), NextBorn(born, w.s, run[0].op, run[0].now), run[1..]);
    }
  }

  // ---------------------------------------------------------------- the queue

  /** An acyclic queue never locks up: when every task is queued or finished and some task is
      queued, the gate opens for a queued task or dooms one, so an unrestricted claim makes progress. */
  lemma QueueNeverLocksUp(s: Store)
    requires Acyclic(s) && QueuedSet(s) != {}
    requires forall id :: id in s.tasks ==> s.tasks[id].status == Queued || Terminal(s.tasks[id].status)
    ensures exists id :: id in QueuedSet(s) && !VerdictOf(s, id).Blocked?
  {
    assert HasSource(s, QueuedSet(s));
    var m :| m in QueuedSet(s) && !LinksInto(s, m, QueuedSet(s));
    GateVerdict(s, s.tasks[m].dependsOn, false);
    forall d | d in s.tasks[m].dependsOn ensures Done(s, d) || Doomed(s, d) {
      assert LinksTo(s.tasks[m], d);
    }
  }

  function Plain(id: TaskId, scope: string, deps: seq<TaskId>): CreateInput {
    CreateInput(id, "k", scope, false, 0, None, "", None, deps)
  }

  function PlainTask(scope: string, deps: seq<TaskId>): Task {
    NewTask(Plain("", scope, deps), 0)
  }

  lemma PlainCreate(s: Store, id: TaskId, scope: string, deps: seq<TaskId>)
    requires id !in s.tasks && forall d :: d in deps ==> d in s.tasks && d != id
    ensures var (e, r) := CreateTask(s, Plain(id, scope, deps), 0);
            r.Ok? && e.tasks == s.tasks[id := PlainTask(scope, deps)]
  {
    GoodDependencies(s, id, deps);
  }

  /** Creating a deleted id again can close a cycle. Create `a`; create `b`, which waits for it;
      delete the scope of `a`; create `a` anew, waiting for `b`: both wait for ever. */
  lemma RecreationCanLockUp()
    ensures var (s1, r1) := CreateTask(EMPTY, Plain("a", "x", []), 0);
            var (s2, r2) := CreateTask(s1, Plain("b", "y", ["a"]), 0);
            var (s3, r3) := DeleteByScope(s2, "x");
            var (s4, r4) := CreateTask(s3, Plain("a", "x", ["b"]), 0);
            r1.Ok? && r2.Ok? && r3.Ok? && r4.Ok? && CyclicPair(s4, "a", "b")
            && ClosesCycle(s3, Plain("a", "x", ["b"]))
  {
    PlainCreate(EMPTY, "a", "x", []);
    var s1 := CreateTask(EMPTY, Plain("a", "x", []), 0).0;
    PlainCreate(s1, "b", "y", ["a"]);
    var s2 := CreateTask(s1, Plain("b", "y", ["a"]), 0).0;
    DeletesX(s2);
    var s3 := DeleteByScope(s2, "x").0;
    PlainCreate(s3, "a", "x", ["b"]);
    assert Chain(s3, ["b"], Plain("a", "x", ["b"]));
    Cyclic(CreateTask(s3, Plain("a", "x", ["b"]), 0).0);
  }

  lemma DeletesX(s: Store)
    requires s.tasks == map["a" := PlainTask("x", []), "b" := PlainTask("y", ["a"])]
    ensures DeleteByScope(s, "x").1.Ok? && DeleteByScope(s, "x").0.tasks == map["b" := PlainTask("y", ["a"])]
  {
    assert "a" != "b" && "x" != "y";
    assert InScope(s, "x") == {"a"} && BusyIn(s, "x") == {};
  }

  lemma Cyclic(s: Store)
    requires s.tasks == map["b" := PlainTask("y", ["a"]), "a" := PlainTask("x", ["b"])]
    ensures CyclicPair(s, "a", "b")
  {
    assert "a" != "b";
    assert ["a"][1..] == [] && ["b"][1..] == [];
    assert "b" in s.tasks["a"].dependsOn && "a" in s.tasks["b"].dependsOn;
    assert LinksTo(s.tasks["a"], "b") && LinksTo(s.tasks["b"], "a");
  }

  ghost predicate CyclicPair(s: Store, a: TaskId, b: TaskId) {
    && a in s.tasks && b in s.tasks && s.tasks[a].status == s.tasks[b].status == Queued
    && s.tasks[a].dependsOn == [b] && s.tasks[b].dependsOn == [a]
    && VerdictOf(s, a).Blocked? && VerdictOf(s, b).Blocked?
    && !HasSource(s, {a, b})
  }
}
