/**
 What appending, chaining and archiving do to a chat's tree, and what reading its active path
 returns.
 */
module TreeSteps {
  import opened Wrappers
  import opened MessageTree
  import opened TreeProofs

  // ---------------------------------------------------------------------- appending

  /** A new record, as the store builds it: last in order, under a parent that is there and not archived. */
  predicate Attaches(rs: seq<Message>, top: nat, m: Message) {
    && (forall i :: 0 <= i < |rs| ==> rs[i].id != m.id)
    && m.orderKey == top + 1 && !m.archived
    && match m.parent
       case None => m.depth == 0
       case Some(p) => At(rs, p) < |rs| && !rs[At(rs, p)].archived && m.depth == rs[At(rs, p)].depth + 1
  }

  lemma {:induction false} AtExtended(rs: seq<Message>, m: Message, id: string)
    requires At(rs, id) < |rs|
    ensures At(rs + [m], id) == At(rs, id)
  {
    if rs[0].id != id {
      assert (rs + [m])[1..] == rs[1..] + [m];
      AtExtended(rs[1..], m, id);
    }
  }

  lemma ParentsExtended(rs: seq<Message>, top: nat, m: Message)
    requires AllLinked(rs) && Attaches(rs, top, m)
    ensures forall i :: 0 <= i < |rs + [m]| && (rs + [m])[i].parent.Some? ==>
              var p := (rs + [m])[i].parent.value;
              At(rs + [m], p) == At(rs, p) < i
  {
    var qs := rs + [m];
    forall i | 0 <= i < |qs| && qs[i].parent.Some?
      ensures At(qs, qs[i].parent.value) == At(rs, qs[i].parent.value) < i
    {
      assert i < |rs| ==> Linked(rs, i);
      AtExtended(rs, m, qs[i].parent.value);
    }
  }

  lemma AppendKeepsShape(rs: seq<Message>, top: nat, m: Message)
    requires Shape(rs, top) && Buried(rs) && Attaches(rs, top, m)
    ensures Shape(rs + [m], top + 1) && Buried(rs + [m])
  {
    var qs := rs + [m];
    ParentsExtended(rs, top, m);
    forall i | 0 <= i < |qs| ensures Linked(qs, i) {
      assert i < |rs| ==> Linked(rs, i);
    }
    AppendKeepsBuried(rs, top, m);
  }

  lemma AppendKeepsBuried(rs: seq<Message>, top: nat, m: Message)
    requires Shape(rs, top) && Buried(rs) && Attaches(rs, top, m)
    ensures Buried(rs + [m])
  {
    var qs := rs + [m];
    ParentsExtended(rs, top, m);
    forall i | 0 <= i < |rs|
      ensures qs[i] == rs[i] && (rs[i].parent.Some? ==> At(rs, rs[i].parent.value) < |rs|)
    {
      assert Linked(rs, i);
    }
  }

  /** An activating append leaves exactly the path to the new message active. */
  lemma AppendSwitches(rs: seq<Message>, top: nat, m: Message)
    requires Shape(rs, top) && Buried(rs) && Attaches(rs, top, m)
    ensures var qs := Activated(rs + [m], m.id);
            Tree(qs, top + 1) && SameButFlags(rs + [m], qs) && qs[|rs|].active
  {
    AppendKeepsShape(rs, top, m);
    assert (rs + [m])[|rs|] == m;
    SwitchMarksOnePath(rs + [m], top + 1, |rs|);
  }

  lemma ActiveOnPath(rs: seq<Message>, path: seq<nat>, i: nat)
    requires RootToLeaf(rs, path) && Marks(rs, path) && i < |rs| && DistinctIds(rs) && Buried(rs)
    ensures !rs[i].active ==> i !in path
    ensures i in path && i != Last(path) ==> HasActiveChild(rs, rs[i].id)
    ensures i == Last(path) ==> rs[i].active && !HasActiveChild(rs, rs[i].id)
  {
    if i in path && i != Last(path) {
      var k :| 0 <= k < |path| && path[k] == i;
      var child := rs[path[k + 1]];
      assert path[k + 1] in path;
      assert child in rs && child.parent == Some(rs[i].id) && Live(child);
    }
  }

  lemma NoChildYet(rs: seq<Message>, top: nat, m: Message)
    requires Shape(rs, top) && Attaches(rs, top, m)
    ensures forall j :: 0 <= j < |rs| ==> rs[j].parent != Some(m.id)
    ensures m.parent != Some(m.id)
  {
    forall j | 0 <= j < |rs| ensures rs[j].parent != Some(m.id) {
      assert Linked(rs, j);
    }
  }

  /** A chain append keeps one path active: its own, if it continues the live end, else the same. */
  lemma ChainAppendKeepsTree(rs: seq<Message>, top: nat, m: Message)
    requires Tree(rs, top) && Attaches(rs, top, m) && m.parent.Some?
    requires m.active == ChainedActive(rs, rs[At(rs, m.parent.value)])
    ensures Tree(rs + [m], top + 1)
  {
    var qs, i := rs + [m], At(rs, m.parent.value);
    var path: seq<nat> :| RootToLeaf(rs, path) && Marks(rs, path);
    AppendKeepsShape(rs, top, m);
    NoChildYet(rs, top, m);
    ActiveOnPath(rs, path, i);
    if m.active {
      ExtendPath(rs, path, m);
    } else {
      assert i != Last(path);
      SamePath(rs, path, m, i);
    }
  }

  lemma ExtendPath(rs: seq<Message>, path: seq<nat>, m: Message)
    requires RootToLeaf(rs, path) && Marks(rs, path) && m.active && !m.archived
    requires m.parent == Some(rs[Last(path)].id) && m.parent != Some(m.id)
    requires forall j :: 0 <= j < |rs| ==> rs[j].parent != Some(m.id)
    ensures RootToLeaf(rs + [m], path + [|rs|]) && Marks(rs + [m], path + [|rs|])
  {
    var qs, longer := rs + [m], path + [|rs|];
    assert forall k :: 0 <= k < |path| ==> longer[k] == path[k] && qs[path[k]] == rs[path[k]];
    assert longer[|path|] == |rs| && qs[|rs|] == m;
    assert forall i :: 0 <= i < |rs| ==> qs[i] == rs[i] && (i in longer <==> i in path);
  }

  lemma SamePath(rs: seq<Message>, path: seq<nat>, m: Message, i: nat)
    requires RootToLeaf(rs, path) && Marks(rs, path) && !m.active && DistinctIds(rs)
    requires i < |rs| && m.parent == Some(rs[i].id) && i != Last(path)
    ensures RootToLeaf(rs + [m], path) && Marks(rs + [m], path)
  {
    var qs := rs + [m];
    assert forall k :: 0 <= k < |rs| ==> qs[k] == rs[k];
    assert |rs| !in path;
  }

  // ---------------------------------------------------------------------- archiving

  /** The walk over a subtree: None as soon as it meets an active message. */
  function Sweep(rs: seq<Message>, pending: seq<Message>, seen: set<string>): Option<set<string>>
    requires forall m :: m in pending ==> m in rs
    decreases Ids(rs) - seen, |pending|
  {
    if pending == [] then Some(seen)
    else if pending[0].id in seen then Sweep(rs, pending[1..], seen)
    else if pending[0].active then None
    else
      ChildrenAre(rs, Some(pending[0].id));
      assert pending[0].id in Ids(rs);
      Sweep(rs, pending[1..] + ChildrenIn(rs, Some(pending[0].id)), seen + {pending[0].id})
  }

  /** The messages it meets, each once, in its order. */
  function Met(rs: seq<Message>, pending: seq<Message>, seen: set<string>): Option<seq<Message>>
    requires forall m :: m in pending ==> m in rs
    decreases Ids(rs) - seen, |pending|
  {
    if pending == [] then Some([])
    else if pending[0].id in seen then Met(rs, pending[1..], seen)
    else if pending[0].active then None
    else
      ChildrenAre(rs, Some(pending[0].id));
      assert pending[0].id in Ids(rs);
      match Met(rs, pending[1..] + ChildrenIn(rs, Some(pending[0].id)), seen + {pending[0].id})
      case None => None
      case Some(more) => Some([pending[0]] + more)
  }

  lemma {:induction false} MetIs(rs: seq<Message>, pending: seq<Message>, seen: set<string>)
    requires forall m :: m in pending ==> m in rs
    ensures Met(rs, pending, seen).Some? <==> Sweep(rs, pending, seen).Some?
    ensures Met(rs, pending, seen).Some? ==>
              && Sweep(rs, pending, seen).value == seen + Ids(Met(rs, pending, seen).value)
              && forall m :: m in Met(rs, pending, seen).value ==> m in rs
    decreases Ids(rs) - seen, |pending|
  {
    if pending != [] {
      var m := pending[0];
      if m.id in seen {
        MetIs(rs, pending[1..], seen);
      } else if !m.active {
        var later := pending[1..] + ChildrenIn(rs, Some(m.id));
        ChildrenAre(rs, Some(m.id));
        assert m.id in Ids(rs);
        MetIs(rs, later, seen + {m.id});
        if Met(rs, later, seen + {m.id}).Some? {
          MetMore(m, Met(rs, later, seen + {m.id}).value);
        }
      }
    }
  }

  lemma MetMore(m: Message, more: seq<Message>)
    ensures Ids([m] + more) == {m.id} + Ids(more)
  {
    assert forall n :: n in [m] + more <==> n == m || n in more;
  }

  predicate InSet(rs: seq<Message>, ids: set<string>) {
    forall m :: m in rs ==> m.id in ids
  }

  /** The set holds the children of its members, but for those only promised by `pending`. */
  predicate Closed(rs: seq<Message>, seen: set<string>, pending: seq<Message>) {
    forall m :: m in rs && m.parent.Some? && m.parent.value in seen ==> m.id in seen || m in pending
  }

  predicate NoneActive(rs: seq<Message>, ids: set<string>) {
    forall m :: m in rs && m.id in ids ==> !m.active
  }

  lemma {:induction false} SweepIsClosed(rs: seq<Message>, pending: seq<Message>, seen: set<string>)
    requires forall m :: m in pending ==> m in rs
    requires DistinctIds(rs) && Closed(rs, seen, pending) && NoneActive(rs, seen)
    ensures var s := Sweep(rs, pending, seen);
            s.Some? ==> seen <= s.value && InSet(pending, s.value) && Closed(rs, s.value, []) && NoneActive(rs, s.value)
    decreases Ids(rs) - seen, |pending|
  {
    if pending != [] {
      var m := pending[0];
      assert forall n :: n in pending ==> n == m || n in pending[1..];
      if m.id in seen {
        ClosedWithout(rs, seen, pending);
        SweepIsClosed(rs, pending[1..], seen);
      } else if !m.active {
        ChildrenAre(rs, Some(m.id));
        assert m.id in Ids(rs);
        OnlyOne(rs, m);
        SweepIsClosed(rs, pending[1..] + ChildrenIn(rs, Some(m.id)), seen + {m.id});
      }
    }
  }

  lemma OnlyOne(rs: seq<Message>, m: Message)
    requires DistinctIds(rs) && m in rs
    ensures forall n :: n in rs && n.id == m.id ==> n == m
  {
  }

  lemma ClosedWithout(rs: seq<Message>, seen: set<string>, pending: seq<Message>)
    requires DistinctIds(rs) && pending != [] && pending[0] in rs && pending[0].id in seen && Closed(rs, seen, pending)
    ensures Closed(rs, seen, pending[1..])
  {
    assert forall n :: n in pending ==> n == pending[0] || n in pending[1..];
  }

  lemma ParentOnPath(rs: seq<Message>, path: seq<nat>, k: nat)
    requires RootToLeaf(rs, path) && Marks(rs, path) && 0 < k < |path|
    ensures rs[path[k]].parent == Some(rs[path[k - 1]].id) && rs[path[k - 1]].active
  {
    var j := k - 1;
    assert path[j] in path && rs[path[j + 1]].parent == Some(rs[path[j]].id);
  }

  lemma ActiveParent(rs: seq<Message>, i: nat, j: nat)
    requires DistinctIds(rs) && OnePath(rs) && i < |rs| && j < |rs|
    requires rs[j].parent == Some(rs[i].id) && rs[j].active
    ensures rs[i].active
  {
    var path: seq<nat> :| RootToLeaf(rs, path) && Marks(rs, path);
    var k :| 0 <= k < |path| && path[k] == j;
    assert k > 0;
    ParentOnPath(rs, path, k);
  }

  /** Nothing hangs active from what is inactive. */
  lemma InactiveBelow(rs: seq<Message>, i: nat, j: nat)
    requires DistinctIds(rs) && OnePath(rs) && i < |rs| && j < |rs|
    requires rs[j].parent == Some(rs[i].id) && !rs[i].active
    ensures !rs[j].active
  {
    if rs[j].active {
      ActiveParent(rs, i, j);
    }
  }

  lemma {:induction false} SweepOfInactive(rs: seq<Message>, pending: seq<Message>, seen: set<string>)
    requires forall m :: m in pending ==> m in rs && !m.active
    requires DistinctIds(rs) && OnePath(rs)
    ensures Sweep(rs, pending, seen).Some?
    decreases Ids(rs) - seen, |pending|
  {
    if pending != [] {
      var m := pending[0];
      if m.id in seen {
        SweepOfInactive(rs, pending[1..], seen);
      } else {
        ChildrenAre(rs, Some(m.id));
        assert m.id in Ids(rs);
        forall c | c in ChildrenIn(rs, Some(m.id)) ensures !c.active {
          var i :| 0 <= i < |rs| && rs[i] == m;
          var j :| 0 <= j < |rs| && rs[j] == c;
          InactiveBelow(rs, i, j);
        }
        SweepOfInactive(rs, pending[1..] + ChildrenIn(rs, Some(m.id)), seen + {m.id});
      }
    }
  }

  /** Index `i` is an ancestor of index `k`, or `k` itself. */
  predicate Above(rs: seq<Message>, i: nat, k: nat)
    requires AllLinked(rs) && i < |rs| && k < |rs|
  {
    i in UpPath(rs, k)
  }

  predicate AllBelow(rs: seq<Message>, i: nat, ids: set<string>)
    requires AllLinked(rs) && i < |rs|
  {
    forall k :: 0 <= k < |rs| && rs[k].id in ids ==> Above(rs, i, k)
  }

  lemma ChildrenAreBelow(rs: seq<Message>, i: nat, m: Message)
    requires DistinctIds(rs) && AllLinked(rs) && i < |rs| && m in rs && AllBelow(rs, i, {m.id})
    ensures AllBelow(rs, i, Ids(ChildrenIn(rs, Some(m.id))))
  {
    ChildrenAre(rs, Some(m.id));
    var p :| 0 <= p < |rs| && rs[p] == m;
    forall k | 0 <= k < |rs| && rs[k].id in Ids(ChildrenIn(rs, Some(m.id))) ensures Above(rs, i, k) {
      var c :| c in ChildrenIn(rs, Some(m.id)) && c.id == rs[k].id;
      OnlyOne(rs, c);
      assert Linked(rs, k);
      AtIs(rs, p);
      assert Above(rs, i, p);
    }
  }

  lemma {:induction false} SweepStaysBelow(rs: seq<Message>, i: nat, pending: seq<Message>, seen: set<string>)
    requires forall m :: m in pending ==> m in rs
    requires DistinctIds(rs) && AllLinked(rs) && i < |rs|
    requires AllBelow(rs, i, seen) && AllBelow(rs, i, Ids(pending))
    ensures var s := Sweep(rs, pending, seen);
            s.Some? ==> AllBelow(rs, i, s.value)
    decreases Ids(rs) - seen, |pending|
  {
    if pending != [] {
      var m := pending[0];
      assert m.id in Ids(pending) && forall n :: n in pending[1..] ==> n.id in Ids(pending);
      if m.id in seen {
        SweepStaysBelow(rs, i, pending[1..], seen);
      } else if !m.active {
        ChildrenAre(rs, Some(m.id));
        assert m.id in Ids(rs);
        ChildrenAreBelow(rs, i, m);
        var more := pending[1..] + ChildrenIn(rs, Some(m.id));
        assert Ids(more) == Ids(pending[1..]) + Ids(ChildrenIn(rs, Some(m.id)));
        SweepStaysBelow(rs, i, more, seen + {m.id});
      }
    }
  }

  function Archived(rs: seq<Message>, ids: set<string>): (qs: seq<Message>)
    ensures |qs| == |rs|
    ensures forall i :: 0 <= i < |rs| ==> qs[i] == rs[i].(archived := rs[i].archived || rs[i].id in ids)
  {
    seq(|rs|, i requires 0 <= i < |rs| => rs[i].(archived := rs[i].archived || rs[i].id in ids))
  }

  /** The subtree of a message: it and all that is below it, no more and no less. */
  lemma SubtreeIs(rs: seq<Message>, top: nat, i: nat)
    requires Tree(rs, top) && i < |rs|
    ensures Sweep(rs, [rs[i]], {}) == None <==> rs[i].active
    ensures var s := Sweep(rs, [rs[i]], {});
            s.Some? ==> Closed(rs, s.value, []) && NoneActive(rs, s.value)
                        && forall k :: 0 <= k < |rs| ==> (rs[k].id in s.value <==> Above(rs, i, k))
  {
    var s := Sweep(rs, [rs[i]], {});
    if !rs[i].active {
      SweepOfInactive(rs, [rs[i]], {});
      SweepIsClosed(rs, [rs[i]], {});
      OnlyOne(rs, rs[i]);
      assert AllBelow(rs, i, Ids([rs[i]])) by {
        forall k | 0 <= k < |rs| && rs[k].id in Ids([rs[i]]) ensures Above(rs, i, k) {
          assert k == i && Linked(rs, i);
        }
      }
      SweepStaysBelow(rs, i, [rs[i]], {});
      forall k | 0 <= k < |rs| && Above(rs, i, k) ensures rs[k].id in s.value {
        assert rs[i] in [rs[i]];
        ClosedReaches(rs, i, k, s.value);
      }
    }
  }

  lemma {:induction false} ClosedReaches(rs: seq<Message>, i: nat, k: nat, ids: set<string>)
    requires AllLinked(rs) && i < |rs| && k < |rs| && Above(rs, i, k)
    requires Closed(rs, ids, []) && rs[i].id in ids
    ensures rs[k].id in ids
    decreases k
  {
    assert Linked(rs, k);
    if k != i {
      var p := At(rs, rs[k].parent.value);
      ClosedReaches(rs, i, p, ids);
      assert rs[k] in rs;
    }
  }

  /** Archiving a subtree without active messages leaves the active path as it is. */
  lemma ArchiveKeepsTree(rs: seq<Message>, top: nat, ids: set<string>)
    requires Tree(rs, top) && Closed(rs, ids, []) && NoneActive(rs, ids)
    ensures Tree(Archived(rs, ids), top)
  {
    var qs := Archived(rs, ids);
    ShapeIgnoresFlags(rs, qs, top);
    forall i | 0 <= i < |rs| && rs[i].parent.Some? && At(rs, rs[i].parent.value) < |rs|
      ensures At(qs, rs[i].parent.value) == At(rs, rs[i].parent.value)
      ensures qs[At(rs, rs[i].parent.value)].archived ==> qs[i].archived
    {
      SameAt(rs, qs, rs[i].parent.value);
      assert rs[i] in rs;
    }
    forall i | 0 <= i < |rs| ensures qs[i].archived ==> !qs[i].active {
      assert rs[i] in rs;
    }
    assert Buried(qs);
    if rs != [] {
      var path: seq<nat> :| RootToLeaf(rs, path) && Marks(rs, path);
      forall k | 0 <= k < |path| ensures !qs[path[k]].archived {
        assert path[k] in path && rs[path[k]] in rs;
      }
      assert RootToLeaf(qs, path) && Marks(qs, path);
    }
  }
}
