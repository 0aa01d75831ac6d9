/**
 What one call does to a conversation as it is read: where a new message ends up, what a switch shows below
 its message, what an archive takes away. Told from the messages alone.
 */
module ChatSteps {
  import opened RunFence
  import opened Wrappers
  import opened MessageTree
  import opened TreeProofs
  import opened TreeSteps
  import TreePaths
  import opened Conversation
  import opened ChatFiles
  import opened ChatRuns

  // ------------------------------------------------------------ the one path to a message

  /** There is one way up from a message. */
  lemma {:induction false} UpPathIsUnique(rs: seq<Message>, path: seq<nat>)
    requires DistinctIds(rs) && AllLinked(rs) && path != [] && Chain(rs, path) && rs[path[0]].parent == None
    ensures UpPath(rs, Last(path)) == path
    decreases |path|
  {
    var n := |path| - 1;
    assert Linked(rs, path[n]);
    if n > 0 {
      var front, j := path[..n], n - 1;
      assert Chain(rs, front);
      UpPathIsUnique(rs, front);
      assert rs[path[j + 1]].parent == Some(rs[path[j]].id);
      AtIs(rs, path[j]);
      assert front + [path[n]] == path;
    }
  }

  lemma {:induction false} UpPathExtended(rs: seq<Message>, m: Message, i: nat)
    requires AllLinked(rs) && AllLinked(rs + [m]) && i < |rs|
    ensures UpPath(rs + [m], i) == UpPath(rs, i)
    decreases i
  {
    assert Linked(rs, i) && (rs + [m])[i] == rs[i];
    if rs[i].parent.Some? {
      AtExtended(rs, m, rs[i].parent.value);
      UpPathExtended(rs, m, At(rs, rs[i].parent.value));
    }
  }

  /** The way to a new message: that to its parent, and itself. */
  function WayTo(rs: seq<Message>, m: Message): seq<nat>
    requires AllLinked(rs) && (m.parent.Some? ==> At(rs, m.parent.value) < |rs|)
  {
    (if m.parent.Some? then UpPath(rs, At(rs, m.parent.value)) else []) + [|rs|]
  }

  lemma PathToNew(rs: seq<Message>, top: nat, m: Message)
    requires Shape(rs, top) && Buried(rs) && Attaches(rs, top, m)
    ensures Shape(rs + [m], top + 1) && Buried(rs + [m])
    ensures PathThrough(rs + [m], |rs|) == WayTo(rs, m)
  {
    var qs, n := rs + [m], |rs|;
    AppendKeepsShape(rs, top, m);
    NoChildYet(rs, top, m);
    ChildOfIs(qs, n);
    assert DownPath(qs, n) == [];
    assert Linked(qs, n);
    if m.parent.Some? {
      AtExtended(rs, m, m.parent.value);
      UpPathExtended(rs, m, At(rs, m.parent.value));
    }
  }

  lemma ReadsAs(qs: seq<Message>, top: nat, path: seq<nat>)
    requires Tree(qs, top) && RootToLeaf(qs, path) && Marks(qs, path)
    ensures ActivePath(qs) == TreePaths.Records(qs, path)
  {
    TreePaths.ActivePathIs(qs, path);
  }

  lemma ShownOn(rs: seq<Message>, top: nat, path: seq<nat>)
    requires Tree(rs, top) && RootToLeaf(rs, path) && Marks(rs, path)
    ensures ActivePath(rs) != [] && ActivePath(rs)[|ActivePath(rs)| - 1] == rs[Last(path)]
    ensures UpPath(rs, Last(path)) == path && At(rs, rs[Last(path)].id) == Last(path)
  {
    ReadsAs(rs, top, path);
    UpPathIsUnique(rs, path);
    AtIs(rs, Last(path));
  }

  lemma RecordsGrow(rs: seq<Message>, ts: seq<Message>, path: seq<nat>, n: nat)
    requires Indices(rs, path) && Indices(ts, path + [n]) && n < |ts|
    requires forall k :: 0 <= k < |path| ==> path[k] < |ts| && ts[path[k]] == rs[path[k]]
    ensures TreePaths.Records(ts, path + [n]) == TreePaths.Records(rs, path) + [ts[n]]
  {
    assert forall k :: 0 <= k < |path| ==> (path + [n])[k] == path[k];
    assert (path + [n])[|path|] == n;
  }

  lemma MarkedAlike(rs: seq<Message>, ts: seq<Message>, path: seq<nat>, longer: seq<nat>)
    requires Marks(rs, path) && Marks(ts, longer) && Indices(rs, path) && |rs| <= |ts| && path <= longer
    requires forall i :: 0 <= i < |rs| ==> ts[i] == rs[i].(active := ts[i].active)
    ensures forall k :: 0 <= k < |path| ==> path[k] < |ts| && ts[path[k]] == rs[path[k]]
  {
    forall k | 0 <= k < |path| ensures ts[path[k]] == rs[path[k]] {
      assert path[k] in path && longer[k] == path[k] && path[k] in longer;
    }
  }

  /** The new message and the way to it are what is active after its switch. */
  lemma SwitchedToNew(rs: seq<Message>, top: nat, m: Message)
    requires Tree(rs, top) && Attaches(rs, top, m)
    ensures var ts := Appended(rs, m, true);
            && Tree(ts, top + 1) && RootToLeaf(ts, WayTo(rs, m)) && Marks(ts, WayTo(rs, m))
            && |ts| == |rs| + 1 && ts[|rs|] == m.(active := true)
            && forall i :: 0 <= i < |rs| ==> ts[i] == rs[i].(active := ts[i].active)
  {
    var qs := rs + [m];
    PathToNew(rs, top, m);
    assert qs[|rs|] == m;
    SwitchMarksOnePath(qs, top + 1, |rs|);
  }

  /** An activating append shows the new message at the end, and before it the messages that lead to it. */
  lemma NewMessageIsLast(rs: seq<Message>, top: nat, m: Message)
    requires Tree(rs, top) && Attaches(rs, top, m)
    ensures var path := ActivePath(Appended(rs, m, true));
            path != [] && path[|path| - 1] == m.(active := true)
    ensures m.parent == None ==> ActivePath(Appended(rs, m, true)) == [m.(active := true)]
  {
    SwitchedToNew(rs, top, m);
    ReadsAs(Appended(rs, m, true), top + 1, WayTo(rs, m));
  }

  lemma GrowsOn(rs: seq<Message>, top: nat, m: Message, path: seq<nat>)
    requires Tree(rs, top) && Attaches(rs, top, m) && RootToLeaf(rs, path) && Marks(rs, path)
    requires m.parent == Some(rs[Last(path)].id)
    ensures ActivePath(Appended(rs, m, true)) == TreePaths.Records(rs, path) + [m.(active := true)]
  {
    var ts, longer := Appended(rs, m, true), path + [|rs|];
    ShownOn(rs, top, path);
    assert WayTo(rs, m) == longer;
    SwitchedToNew(rs, top, m);
    ReadsAs(ts, top + 1, longer);
    MarkedAlike(rs, ts, path, longer);
    RecordsGrow(rs, ts, path, |rs|);
  }

  /** Appended behind the last message shown, it is shown behind all that was shown. */
  lemma GrowsAtTheEnd(rs: seq<Message>, top: nat, m: Message)
    requires Tree(rs, top) && Attaches(rs, top, m)
    requires m.parent == if ActivePath(rs) == [] then None else Some(ActivePath(rs)[|ActivePath(rs)| - 1].id)
    ensures ActivePath(Appended(rs, m, true)) == ActivePath(rs) + [m.(active := true)]
  {
    if rs == [] {
      assert ActivePath(rs) == [];
      NewMessageIsLast(rs, top, m);
    } else {
      var path: seq<nat> :| RootToLeaf(rs, path) && Marks(rs, path);
      ShownOn(rs, top, path);
      ReadsAs(rs, top, path);
      GrowsOn(rs, top, m, path);
    }
  }

  lemma ChainedOn(rs: seq<Message>, top: nat, m: Message, path: seq<nat>, i: nat)
    requires Tree(rs, top) && Attaches(rs, top, m) && RootToLeaf(rs, path) && Marks(rs, path)
    requires i < |rs| && m.parent == Some(rs[i].id) && m.active == ChainedActive(rs, rs[i])
    ensures ActivePath(rs + [m]) ==
            if i == Last(path) then TreePaths.Records(rs, path) + [m] else TreePaths.Records(rs, path)
  {
    var qs := rs + [m];
    AtIs(rs, i);
    ChainAppendKeepsTree(rs, top, m);
    NoChildYet(rs, top, m);
    ActiveOnPath(rs, path, i);
    if m.active {
      ExtendPath(rs, path, m);
      ReadsAs(qs, top + 1, path + [|rs|]);
      RecordsGrow(rs, qs, path, |rs|);
    } else {
      SamePath(rs, path, m, i);
      ReadsAs(qs, top + 1, path);
      assert TreePaths.Records(qs, path) == TreePaths.Records(rs, path);
    }
  }

  /** Chained to the last message shown, the new one is shown behind it; chained to any other, nothing that
      is shown changes. */
  lemma ChainedIsShownIff(rs: seq<Message>, top: nat, m: Message)
    requires Tree(rs, top) && Attaches(rs, top, m) && m.parent.Some?
    requires m.active == ChainedActive(rs, rs[At(rs, m.parent.value)])
    ensures ActivePath(rs) != []
    ensures ActivePath(rs + [m]) ==
            if m.parent == Some(ActivePath(rs)[|ActivePath(rs)| - 1].id) then ActivePath(rs) + [m] else ActivePath(rs)
  {
    var i := At(rs, m.parent.value);
    var path: seq<nat> :| RootToLeaf(rs, path) && Marks(rs, path);
    ShownOn(rs, top, path);
    ReadsAs(rs, top, path);
    ChainedOn(rs, top, m, path, i);
  }

  // ----------------------------------------------------------------- below a switch

  /** What a descent prefers: a child that was shown before, then the lowest branch, then the oldest. */
  predicate Preferred(a: Message, b: Message) {
    if a.active != b.active then a.active
    else a.branchIndex < b.branchIndex || (a.branchIndex == b.branchIndex && a.orderKey <= b.orderKey)
  }

  /** Of the children that are not archived, the one a descent goes to. */
  predicate PickedChild(rs: seq<Message>, parent: Message, child: Message) {
    && child in rs && child.parent == Some(parent.id) && !child.archived
    && forall m :: m in rs && m.parent == Some(parent.id) && !m.archived ==> Preferred(child, m)
  }

  predicate BranchSorted(ms: seq<Message>) {
    forall j, k :: 0 <= j < k < |ms| ==> !ByBranch(ms[k], ms[j])
  }

  lemma InsertHolds(m: Message, sorted: seq<Message>)
    ensures forall n :: n in Insert(m, sorted, ByBranch) <==> n == m || n in sorted
  {
    InsertKeeps(m, sorted, ByBranch);
    var all := Insert(m, sorted, ByBranch);
    assert forall n :: n in all <==> n in multiset(all);
    assert forall n :: n in sorted <==> n in multiset(sorted);
  }

  lemma {:induction false} InsertBranch(m: Message, sorted: seq<Message>)
    requires BranchSorted(sorted)
    ensures BranchSorted(Insert(m, sorted, ByBranch))
  {
    if sorted != [] && !ByBranch(m, sorted[0]) {
      InsertBranch(m, sorted[1..]);
      InsertHolds(m, sorted[1..]);
      var rest := Insert(m, sorted[1..], ByBranch);
      forall k | 0 <= k < |rest| ensures !ByBranch(rest[k], sorted[0]) {
        assert rest[k] in rest;
      }
    }
  }

  lemma {:induction false} SortBranch(ms: seq<Message>)
    ensures BranchSorted(StableSort(ms, ByBranch))
  {
    if ms != [] {
      SortBranch(ms[..|ms| - 1]);
      InsertBranch(ms[|ms| - 1], StableSort(ms[..|ms| - 1], ByBranch));
    }
  }

  lemma {:induction false} FirstActiveIs(sorted: seq<Message>)
    requires BranchSorted(sorted) && FirstActive(sorted).Some?
    ensures forall m :: m in sorted && m.active ==> !ByBranch(m, FirstActive(sorted).value)
  {
    if sorted[0].active {
      forall m | m in sorted ensures !ByBranch(m, sorted[0]) {
        var k :| 0 <= k < |sorted| && sorted[k] == m;
      }
    } else {
      FirstActiveIs(sorted[1..]);
      assert forall m :: m in sorted && m.active ==> m in sorted[1..];
    }
  }

  lemma NextChildIsPicked(rs: seq<Message>, parent: Message)
    requires NextChild(Available(rs), parent.id).Some?
    ensures PickedChild(rs, parent, NextChild(Available(rs), parent.id).value)
  {
    var av := Available(rs);
    var kids := ChildrenIn(av, Some(parent.id));
    var sorted := StableSort(kids, ByBranch);
    AvailableAre(rs);
    ChildrenAre(av, Some(parent.id));
    SortKeeps(kids, ByBranch);
    SortBranch(kids);
    NextChildIsAChild(av, parent.id);
    var child := NextChild(av, parent.id).value;
    forall m | m in rs && m.parent == Some(parent.id) && !m.archived ensures Preferred(child, m) {
      assert m in sorted;
      if FirstActive(sorted).Some? {
        FirstActiveIs(sorted);
      } else {
        var k :| 0 <= k < |sorted| && sorted[k] == m;
      }
    }
  }

  predicate PicksDown(rs: seq<Message>, path: seq<nat>, i: nat)
    requires Indices(rs, path)
  {
    forall k :: 0 <= k < |path| - 1 && path[k] >= i ==> PickedChild(rs, rs[path[k]], rs[path[k + 1]])
  }

  lemma PicksCons(rs: seq<Message>, i: nat, below: seq<nat>)
    requires i < |rs| && !rs[i].archived && below != [] && Indices(rs, below) && PicksDown(rs, below, 0)
    requires PickedChild(rs, rs[i], rs[below[0]])
    ensures Indices(rs, [i] + below) && PicksDown(rs, [i] + below, 0)
  {
    var path := [i] + below;
    forall k | 0 <= k < |path| - 1 ensures PickedChild(rs, rs[path[k]], rs[path[k + 1]]) {
      if k > 0 {
        assert path[k] == below[k - 1] && path[k + 1] == below[k];
      }
    }
  }

  lemma {:induction false} DownPathPicks(rs: seq<Message>, i: nat)
    requires DistinctIds(rs) && AllLinked(rs) && i < |rs| && !rs[i].archived
    ensures Indices(rs, [i] + DownPath(rs, i)) && PicksDown(rs, [i] + DownPath(rs, i), 0)
    decreases |rs| - i
  {
    ChildOfIs(rs, i);
    var j := ChildOf(rs, i);
    if j.Some? {
      DownPathPicks(rs, j.value);
      NextChildIsPicked(rs, rs[i]);
      PicksCons(rs, i, [j.value] + DownPath(rs, j.value));
    }
  }

  lemma PicksJoin(rs: seq<Message>, up: seq<nat>, down: seq<nat>, i: nat)
    requires up != [] && Last(up) == i && TreePaths.Climbing(up) && Indices(rs, up + down) && Indices(rs, [i] + down)
    requires PicksDown(rs, [i] + down, 0)
    ensures PicksDown(rs, up + down, i)
  {
    var path, below, last := up + down, [i] + down, |up| - 1;
    assert forall k :: 0 <= k < last ==> path[k] == up[k] < up[last];
    assert forall k :: last <= k < |path| ==> path[k] == below[k - last];
    forall k | 0 <= k < |path| - 1 && path[k] >= i ensures PickedChild(rs, rs[path[k]], rs[path[k + 1]]) {
      var d := k - last;
      assert path[k] == below[d] && path[k + 1] == below[d + 1];
    }
  }

  lemma ShownActive(rs: seq<Message>, qs: seq<Message>, path: seq<nat>)
    requires SameButFlags(rs, qs) && Marks(qs, path) && Indices(rs, path) && Indices(qs, path)
    ensures forall k :: 0 <= k < |path| ==> qs[path[k]] == rs[path[k]].(active := true)
  {
    forall k | 0 <= k < |path| ensures qs[path[k]] == rs[path[k]].(active := true) {
      assert path[k] in path;
    }
  }

  lemma PicksThrough(rs: seq<Message>, i: nat)
    requires DistinctIds(rs) && AllLinked(rs) && Buried(rs) && i < |rs| && !rs[i].archived
    ensures RootToLeaf(rs, PathThrough(rs, i)) && i in PathThrough(rs, i)
    ensures PicksDown(rs, PathThrough(rs, i), i)
  {
    PathThroughIsOne(rs, i);
    UpPathIsChain(rs, i);
    TreePaths.PathRises(rs, UpPath(rs, i));
    DownPathPicks(rs, i);
    PicksJoin(rs, UpPath(rs, i), DownPath(rs, i), i);
  }

  /** A switch shows the message, and below each message from it on the child that was shown before, or else
      the one on the lowest branch. */
  lemma SwitchShows(rs: seq<Message>, top: nat, i: nat) returns (path: seq<nat>)
    requires Tree(rs, top) && i < |rs| && !rs[i].archived
    ensures Indices(rs, path) && PicksDown(rs, path, i) && i in path
    ensures var shown := ActivePath(Activated(rs, rs[i].id));
            |shown| == |path| && forall k :: 0 <= k < |path| ==> shown[k] == rs[path[k]].(active := true)
  {
    path := PathThrough(rs, i);
    PicksThrough(rs, i);
    SwitchMarksOnePath(rs, top, i);
    var qs := Activated(rs, rs[i].id);
    ReadsAs(qs, top, path);
    ShownActive(rs, qs, path);
  }

  lemma NothingBelowLast(rs: seq<Message>, path: seq<nat>)
    requires DistinctIds(rs) && AllLinked(rs) && RootToLeaf(rs, path)
    ensures DownPath(rs, Last(path)) == []
  {
    ChildOfIs(rs, Last(path));
  }

  lemma DownFrom(rs: seq<Message>, i: nat, j: nat)
    requires DistinctIds(rs) && AllLinked(rs) && i < |rs| && ChildOf(rs, i) == Some(j)
    ensures DownPath(rs, i) == [j] + DownPath(rs, j)
  {
    ChildOfIs(rs, i);
  }

  lemma SuffixGrows(path: seq<nat>, k: nat, below: seq<nat>, further: seq<nat>)
    requires k < |path| - 1 && below == [path[k + 1]] + further == path[k + 1..]
    ensures [path[k]] + below == path[k..]
  {
  }

  lemma {:induction false} OnlyShownBelow(rs: seq<Message>, path: seq<nat>, k: nat)
    requires DistinctIds(rs) && AllLinked(rs) && RootToLeaf(rs, path) && Marks(rs, path) && k < |path|
    ensures [path[k]] + DownPath(rs, path[k]) == path[k..]
    decreases |path| - k
  {
    if k == |path| - 1 {
      NothingBelowLast(rs, path);
      assert path[k..] == [path[k]] + [];
    } else {
      ShownChild(rs, path, k);
      DownFrom(rs, path[k], path[k + 1]);
      OnlyShownBelow(rs, path, k + 1);
      SuffixGrows(path, k, DownPath(rs, path[k]), DownPath(rs, path[k + 1]));
    }
  }

  lemma ShownChild(rs: seq<Message>, path: seq<nat>, k: nat)
    requires DistinctIds(rs) && AllLinked(rs) && RootToLeaf(rs, path) && Marks(rs, path) && k < |path| - 1
    ensures ChildOf(rs, path[k]) == Some(path[k + 1])
  {
    ChildOfIs(rs, path[k]);
    var c := rs[path[k + 1]];
    assert path[k + 1] in path && c.active && c.parent == Some(rs[path[k]].id) && c in rs;
    var j := ChildOf(rs, path[k]).value;
    NextChildIsPicked(rs, rs[path[k]]);
    assert rs[j].active;
    var n :| 0 <= n < |path| && path[n] == j;
    TreePaths.PathRises(rs, path);
    ParentOnPath(rs, path, n);
    SameParent(rs, path, k, n);
  }

  lemma SameParent(rs: seq<Message>, path: seq<nat>, k: nat, n: nat)
    requires DistinctIds(rs) && Indices(rs, path) && TreePaths.Climbing(path) && k < |path| - 1 && 0 < n < |path|
    requires rs[path[n]].parent == Some(rs[path[n - 1]].id) == Some(rs[path[k]].id)
    ensures n == k + 1
  {
    AtIs(rs, path[k]);
    AtIs(rs, path[n - 1]);
  }

  lemma FrontIsChain(rs: seq<Message>, path: seq<nat>, k: nat)
    requires RootToLeaf(rs, path) && k < |path|
    ensures var front := path[..k + 1];
            front != [] && Chain(rs, front) && rs[front[0]].parent == None && Last(front) == path[k]
  {
  }

  lemma Rejoined(up: seq<nat>, down: seq<nat>, path: seq<nat>, k: nat)
    requires k < |path| && up == path[..k + 1] && [path[k]] + down == path[k..]
    ensures up + down == path
  {
    assert path[k..] == [path[k]] + path[k + 1..];
    assert down == path[k + 1..] by {
      assert ([path[k]] + down)[1..] == down && ([path[k]] + path[k + 1..])[1..] == path[k + 1..];
    }
  }

  lemma ShownThrough(rs: seq<Message>, path: seq<nat>, k: nat)
    requires DistinctIds(rs) && AllLinked(rs) && RootToLeaf(rs, path) && Marks(rs, path) && k < |path|
    ensures PathThrough(rs, path[k]) == path
  {
    FrontIsChain(rs, path, k);
    UpPathIsUnique(rs, path[..k + 1]);
    OnlyShownBelow(rs, path, k);
    Rejoined(UpPath(rs, path[k]), DownPath(rs, path[k]), path, k);
  }

  lemma SameMarks(rs: seq<Message>, qs: seq<Message>, path: seq<nat>)
    requires Marks(rs, path) && Marks(qs, path) && |qs| == |rs|
    requires forall j :: 0 <= j < |rs| ==> qs[j] == rs[j].(active := qs[j].active)
    ensures qs == rs
  {
    forall j | 0 <= j < |rs| ensures qs[j] == rs[j] {
      assert qs[j].active == rs[j].active;
    }
  }

  /** A switch to a message that is shown already changes nothing. */
  lemma SwitchToShown(rs: seq<Message>, top: nat, i: nat)
    requires Tree(rs, top) && i < |rs| && rs[i].active
    ensures Activated(rs, rs[i].id) == rs
  {
    var path: seq<nat> :| RootToLeaf(rs, path) && Marks(rs, path);
    var k :| 0 <= k < |path| && path[k] == i;
    ShownThrough(rs, path, k);
    SwitchMarksOnePath(rs, top, i);
    SameMarks(rs, Activated(rs, rs[i].id), path);
  }
}
