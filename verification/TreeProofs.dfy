/**
 What holds of every chat: its messages form a tree in append order, and the active ones are
 exactly one path of it, from a root to a message without children.
 */
module TreeProofs {
  import opened Wrappers
  import opened MessageTree

  // ------------------------------------------------------------------ the invariant

  /** The first index of the id, or the number of records. */
  function At(rs: seq<Message>, id: string): (i: nat)
    ensures i <= |rs|
    ensures i < |rs| ==> rs[i].id == id
    ensures forall k :: 0 <= k < i ==> rs[k].id != id
  {
    if rs == [] || rs[0].id == id then 0 else 1 + At(rs[1..], id)
  }

  predicate DistinctIds(rs: seq<Message>) {
    forall i, j :: 0 <= i < j < |rs| ==> rs[i].id != rs[j].id
  }

  /** A root has depth 0; any other message comes after its parent, one level deeper. */
  predicate Linked(rs: seq<Message>, i: nat)
    requires i < |rs|
  {
    match rs[i].parent
    case None => rs[i].depth == 0
    case Some(p) => At(rs, p) < i && rs[i].depth == rs[At(rs, p)].depth + 1
  }

  predicate AllLinked(rs: seq<Message>) {
    forall i :: 0 <= i < |rs| ==> Linked(rs, i)
  }

  /** Order keys rise along the list, up to `top`. */
  predicate KeysRise(rs: seq<Message>, top: nat) {
    && (forall i, j :: 0 <= i < j < |rs| ==> rs[i].orderKey < rs[j].orderKey)
    && (forall i :: 0 <= i < |rs| ==> rs[i].orderKey <= top)
  }

  predicate Shape(rs: seq<Message>, top: nat) {
    DistinctIds(rs) && AllLinked(rs) && KeysRise(rs, top)
  }

  /** What is archived is inactive, and so is archived all that hangs from it. */
  predicate Buried(rs: seq<Message>) {
    forall i :: 0 <= i < |rs| ==>
      && (rs[i].archived ==> !rs[i].active)
      && (rs[i].parent.Some? && At(rs, rs[i].parent.value) < |rs| && rs[At(rs, rs[i].parent.value)].archived ==> rs[i].archived)
  }

  predicate Childless(rs: seq<Message>, i: nat)
    requires i < |rs|
  {
    forall j :: 0 <= j < |rs| && rs[j].parent == Some(rs[i].id) ==> rs[j].archived
  }

  predicate Indices(rs: seq<Message>, path: seq<nat>) {
    forall k :: 0 <= k < |path| ==> path[k] < |rs| && !rs[path[k]].archived
  }

  /** Each message of the path is the parent of the next. */
  predicate Chain(rs: seq<Message>, path: seq<nat>) {
    Indices(rs, path) && forall k :: 0 <= k < |path| - 1 ==> rs[path[k + 1]].parent == Some(rs[path[k]].id)
  }

  /** From a root to a message without children that are not archived. */
  predicate RootToLeaf(rs: seq<Message>, path: seq<nat>) {
    && path != [] && Chain(rs, path)
    && rs[path[0]].parent == None && Childless(rs, path[|path| - 1])
  }

  predicate Marks(rs: seq<Message>, path: seq<nat>) {
    forall i :: 0 <= i < |rs| ==> (rs[i].active <==> i in path)
  }

  ghost predicate OnePath(rs: seq<Message>) {
    rs == [] || exists path: seq<nat> :: RootToLeaf(rs, path) && Marks(rs, path)
  }

  ghost predicate Tree(rs: seq<Message>, top: nat) {
    Shape(rs, top) && Buried(rs) && OnePath(rs)
  }

  // ----------------------------------------------------- records that differ in flags

  predicate SameButFlags(rs: seq<Message>, qs: seq<Message>) {
    |rs| == |qs| &&
    forall i :: 0 <= i < |rs| ==> qs[i] == rs[i].(active := qs[i].active, archived := qs[i].archived)
  }

  lemma {:induction false} SameAt(rs: seq<Message>, qs: seq<Message>, id: string)
    requires SameButFlags(rs, qs)
    ensures At(rs, id) == At(qs, id)
  {
    if rs != [] {
      assert SameButFlags(rs[1..], qs[1..]);
      SameAt(rs[1..], qs[1..], id);
    }
  }

  lemma ShapeIgnoresFlags(rs: seq<Message>, qs: seq<Message>, top: nat)
    requires SameButFlags(rs, qs) && Shape(rs, top)
    ensures Shape(qs, top)
  {
    forall i | 0 <= i < |qs| ensures Linked(qs, i) {
      assert Linked(rs, i);
      if rs[i].parent.Some? {
        SameAt(rs, qs, rs[i].parent.value);
      }
    }
  }

  // ------------------------------------------------------------- paths by index

  lemma AtIs(rs: seq<Message>, i: nat)
    requires DistinctIds(rs) && i < |rs|
    ensures At(rs, rs[i].id) == i
  {
  }

  /** From the root down to the message. */
  function UpPath(rs: seq<Message>, i: nat): seq<nat>
    requires AllLinked(rs) && i < |rs|
    decreases i
  {
    assert Linked(rs, i);
    match rs[i].parent
    case None => [i]
    case Some(p) => UpPath(rs, At(rs, p)) + [i]
  }

  lemma {:induction false} UpPathIsChain(rs: seq<Message>, i: nat)
    requires DistinctIds(rs) && AllLinked(rs) && Buried(rs) && i < |rs| && !rs[i].archived
    ensures var path := UpPath(rs, i);
            && path != [] && Chain(rs, path) && rs[path[0]].parent == None && path[|path| - 1] == i
            && (forall k :: k in path ==> k <= i)
    decreases i
  {
    assert Linked(rs, i);
    if rs[i].parent.Some? {
      UpPathIsChain(rs, At(rs, rs[i].parent.value));
    }
  }

  /** The child of message `i` that a descent takes, by index. */
  function ChildOf(rs: seq<Message>, i: nat): (j: Option<nat>)
    requires i < |rs|
    ensures j.Some? ==> j.value < |rs|
  {
    match NextChild(Available(rs), rs[i].id)
    case None => None
    case Some(m) => if At(rs, m.id) < |rs| then Some(At(rs, m.id)) else None
  }

  lemma {:induction false} AvailableAre(rs: seq<Message>)
    ensures forall m :: m in Available(rs) <==> m in rs && !m.archived
  {
    if rs != [] {
      AvailableAre(rs[..|rs| - 1]);
      assert rs == rs[..|rs| - 1] + [rs[|rs| - 1]];
    }
  }

  lemma ChildOfIs(rs: seq<Message>, i: nat)
    requires DistinctIds(rs) && AllLinked(rs) && i < |rs|
    ensures var j := ChildOf(rs, i);
            && (j.Some? ==> i < j.value && rs[j.value].parent == Some(rs[i].id) && !rs[j.value].archived
                            && NextChild(Available(rs), rs[i].id) == Some(rs[j.value]))
            && (j.None? ==> Childless(rs, i) && NextChild(Available(rs), rs[i].id) == None)
  {
    var av := Available(rs);
    var next := NextChild(av, rs[i].id);
    AvailableAre(rs);
    NextChildIsAChild(av, rs[i].id);
    if next.Some? {
      var j :| 0 <= j < |rs| && rs[j] == next.value;
      AtIs(rs, j);
      AtIs(rs, i);
      assert Linked(rs, j);
    } else {
      assert forall j :: 0 <= j < |rs| && !rs[j].archived ==> rs[j] in av;
    }
  }

  /** From below the message down to a leaf. */
  function DownPath(rs: seq<Message>, i: nat): seq<nat>
    requires DistinctIds(rs) && AllLinked(rs) && i < |rs|
    decreases |rs| - i
  {
    ChildOfIs(rs, i);
    match ChildOf(rs, i)
    case None => []
    case Some(j) => [j] + DownPath(rs, j)
  }

  lemma ChainCons(rs: seq<Message>, i: nat, below: seq<nat>)
    requires i < |rs| && !rs[i].archived && Chain(rs, below) && below != []
    requires rs[below[0]].parent == Some(rs[i].id)
    ensures Chain(rs, [i] + below) && Last([i] + below) == Last(below)
  {
    var path := [i] + below;
    assert forall k :: 0 <= k < |below| ==> path[k + 1] == below[k];
  }

  lemma ChainJoin(rs: seq<Message>, up: seq<nat>, i: nat, below: seq<nat>)
    requires up != [] && Chain(rs, up) && Last(up) == i && Chain(rs, [i] + below)
    ensures Chain(rs, up + below) && Last(up + below) == Last([i] + below) && (up + below)[0] == up[0]
  {
    var path, down := up + below, [i] + below;
    assert forall k :: 0 <= k < |up| ==> path[k] == up[k];
    assert forall k :: |up| - 1 <= k < |path| ==> path[k] == down[k - (|up| - 1)];
    assert Indices(rs, path);
    forall k | 0 <= k < |path| - 1 ensures rs[path[k + 1]].parent == Some(rs[path[k]].id) {
      if k >= |up| - 1 {
        var d := k - (|up| - 1);
        assert path[k] == down[d] && path[k + 1] == down[d + 1];
      }
    }
  }

  function Last(path: seq<nat>): nat
    requires path != []
  {
    path[|path| - 1]
  }

  lemma {:induction false} DownPathIsChain(rs: seq<Message>, i: nat)
    requires DistinctIds(rs) && AllLinked(rs) && i < |rs| && !rs[i].archived
    ensures var path := [i] + DownPath(rs, i);
            Chain(rs, path) && Childless(rs, Last(path))
    ensures forall k :: k in DownPath(rs, i) ==> i < k
    decreases |rs| - i
  {
    ChildOfIs(rs, i);
    var j := ChildOf(rs, i);
    if j.Some? {
      DownPathIsChain(rs, j.value);
      ChainCons(rs, i, [j.value] + DownPath(rs, j.value));
    }
  }

  function PathThrough(rs: seq<Message>, i: nat): seq<nat>
    requires DistinctIds(rs) && AllLinked(rs) && i < |rs|
  {
    UpPath(rs, i) + DownPath(rs, i)
  }

  lemma PathThroughIsOne(rs: seq<Message>, i: nat)
    requires DistinctIds(rs) && AllLinked(rs) && Buried(rs) && i < |rs| && !rs[i].archived
    ensures RootToLeaf(rs, PathThrough(rs, i)) && i in PathThrough(rs, i)
  {
    UpPathIsChain(rs, i);
    DownPathIsChain(rs, i);
    var up := UpPath(rs, i);
    ChainJoin(rs, up, i, DownPath(rs, i));
    assert up[|up| - 1] in up;
  }

  // ------------------------------------------------- a switch marks exactly one path

  function IdsOf(rs: seq<Message>, path: seq<nat>): set<string> {
    set k | k in path && k < |rs| :: rs[k].id
  }

  lemma {:induction false} ByIdIs(rs: seq<Message>, i: nat)
    requires DistinctIds(rs) && i < |rs| && !rs[i].archived
    ensures ById(Available(rs), rs[i].id) == Some(rs[i])
  {
    AvailableAre(rs);
    var found := ById(Available(rs), rs[i].id);
    assert rs[i] in Available(rs) && rs[i].id in Ids(Available(rs));
    var j :| 0 <= j < |rs| && rs[j] == found.value;
  }

  lemma IdsOfConcat(rs: seq<Message>, xs: seq<nat>, ys: seq<nat>)
    ensures IdsOf(rs, xs + ys) == IdsOf(rs, xs) + IdsOf(rs, ys)
  {
  }

  lemma InIds(rs: seq<Message>, path: seq<nat>, i: nat)
    requires DistinctIds(rs) && i < |rs|
    ensures rs[i].id in IdsOf(rs, path) <==> i in path
  {
  }

  lemma ClimbStep(rs: seq<Message>, i: nat, seen: set<string>)
    requires DistinctIds(rs) && i < |rs| && !rs[i].archived && rs[i].id !in seen
    ensures Climb(Available(rs), Some(rs[i].id), seen) == Climb(Available(rs), rs[i].parent, seen + {rs[i].id})
  {
    ByIdIs(rs, i);
  }

  lemma UpPathIds(rs: seq<Message>, i: nat, p: nat)
    requires DistinctIds(rs) && AllLinked(rs) && Buried(rs) && i < |rs| && !rs[i].archived
    requires rs[i].parent.Some? && p == At(rs, rs[i].parent.value)
    ensures p < i && !rs[p].archived && rs[i].parent == Some(rs[p].id)
    ensures IdsOf(rs, UpPath(rs, i)) == IdsOf(rs, UpPath(rs, p)) + {rs[i].id}
    ensures rs[i].id !in IdsOf(rs, UpPath(rs, p))
  {
    assert Linked(rs, i);
    UpPathIsChain(rs, p);
    InIds(rs, UpPath(rs, p), i);
    IdsOfConcat(rs, UpPath(rs, p), [i]);
    assert IdsOf(rs, [i]) == {rs[i].id};
  }

  lemma {:induction false} ClimbIsUpPath(rs: seq<Message>, i: nat, seen: set<string>)
    requires DistinctIds(rs) && AllLinked(rs) && Buried(rs) && i < |rs| && !rs[i].archived
    requires IdsOf(rs, UpPath(rs, i)) !! seen
    ensures Climb(Available(rs), Some(rs[i].id), seen) == seen + IdsOf(rs, UpPath(rs, i))
    decreases i
  {
    if rs[i].parent.Some? {
      var p := At(rs, rs[i].parent.value);
      UpPathIds(rs, i, p);
      ClimbStep(rs, i, seen);
      ClimbIsUpPath(rs, p, seen + {rs[i].id});
    } else {
      assert IdsOf(rs, [i]) == {rs[i].id};
      ClimbStep(rs, i, seen);
    }
  }

  lemma {:induction false} DescendIsDownPath(rs: seq<Message>, i: nat, seen: set<string>)
    requires DistinctIds(rs) && AllLinked(rs) && i < |rs| && !rs[i].archived
    requires IdsOf(rs, DownPath(rs, i)) !! seen
    ensures Descend(Available(rs), rs[i].id, seen) == seen + IdsOf(rs, DownPath(rs, i))
    decreases |rs| - i
  {
    ChildOfIs(rs, i);
    var j := ChildOf(rs, i);
    if j.Some? {
      DownPathIsChain(rs, j.value);
      InIds(rs, DownPath(rs, j.value), j.value);
      IdsOfConcat(rs, [j.value], DownPath(rs, j.value));
      assert IdsOf(rs, [j.value]) == {rs[j.value].id};
      DescendIsDownPath(rs, j.value, seen + {rs[j.value].id});
    }
  }

  lemma ApartIds(rs: seq<Message>, up: seq<nat>, i: nat, down: seq<nat>)
    requires DistinctIds(rs) && (forall k :: k in up ==> k <= i) && (forall k :: k in down ==> i < k)
    ensures IdsOf(rs, up) !! IdsOf(rs, down)
  {
  }

  lemma UpDownApart(rs: seq<Message>, i: nat)
    requires DistinctIds(rs) && AllLinked(rs) && Buried(rs) && i < |rs| && !rs[i].archived
    ensures IdsOf(rs, UpPath(rs, i)) !! IdsOf(rs, DownPath(rs, i))
  {
    UpPathIsChain(rs, i);
    DownPathIsChain(rs, i);
    ApartIds(rs, UpPath(rs, i), i, DownPath(rs, i));
  }

  /** What a switch to a message marks are the messages of the path through it. */
  lemma ActivationSetIsPath(rs: seq<Message>, i: nat)
    requires DistinctIds(rs) && AllLinked(rs) && Buried(rs) && i < |rs| && !rs[i].archived
    ensures ActivationSet(rs, rs[i].id) == IdsOf(rs, PathThrough(rs, i))
  {
    var up, down := UpPath(rs, i), DownPath(rs, i);
    ByIdIs(rs, i);
    ClimbIsUpPath(rs, i, {});
    assert {} + IdsOf(rs, up) == IdsOf(rs, up);
    UpDownApart(rs, i);
    DescendIsDownPath(rs, i, IdsOf(rs, up));
    IdsOfConcat(rs, up, down);
  }

  function Activated(rs: seq<Message>, id: string): seq<Message> {
    Marked(rs, ActivationSet(rs, id))
  }

  lemma PathIgnoresFlag(rs: seq<Message>, qs: seq<Message>, path: seq<nat>)
    requires SameButFlags(rs, qs) && RootToLeaf(rs, path)
    requires forall i :: 0 <= i < |rs| ==> qs[i].archived == rs[i].archived
    ensures RootToLeaf(qs, path)
  {
  }

  lemma BuriedIgnoresPath(rs: seq<Message>, qs: seq<Message>, path: seq<nat>)
    requires SameButFlags(rs, qs) && Buried(rs) && Indices(rs, path) && Marks(qs, path)
    requires forall i :: 0 <= i < |rs| ==> qs[i].archived == rs[i].archived
    ensures Buried(qs)
  {
    forall i | 0 <= i < |qs| && qs[i].parent.Some? ensures At(qs, qs[i].parent.value) == At(rs, rs[i].parent.value) {
      SameAt(rs, qs, rs[i].parent.value);
    }
  }

  /** A switch makes exactly one path active, whatever was active before. */
  lemma SwitchMarksOnePath(rs: seq<Message>, top: nat, i: nat)
    requires Shape(rs, top) && Buried(rs) && i < |rs| && !rs[i].archived
    ensures var qs := Activated(rs, rs[i].id);
            Tree(qs, top) && SameButFlags(rs, qs) && qs[i].active && RootToLeaf(qs, PathThrough(rs, i)) && Marks(qs, PathThrough(rs, i))
  {
    var qs, path := Activated(rs, rs[i].id), PathThrough(rs, i);
    ActivationSetIsPath(rs, i);
    PathThroughIsOne(rs, i);
    forall k | 0 <= k < |rs| ensures qs[k].active <==> k in path {
      InIds(rs, path, k);
    }
    ShapeIgnoresFlags(rs, qs, top);
    PathIgnoresFlag(rs, qs, path);
    BuriedIgnoresPath(rs, qs, path);
  }
}
