/**
 The tree arithmetic of a chat: which messages are its active path, and which ones a switch to
 a message's branch makes active. Pure functions of a chat's records, in the order they were
 appended, and the loops that compute them.
 */
module MessageTree {
  import opened Wrappers

  /** `body` stands for role, content, tool calls, metadata and creation time. */
  datatype Message = Message(id: string, chatId: string, runId: Option<string>, body: string, orderKey: nat,
                             parent: Option<string>, depth: nat, branchIndex: nat, active: bool, archived: bool)

  // --------------------------------------------------------------------- sorting

  function Insert(m: Message, sorted: seq<Message>, less: (Message, Message) -> bool): seq<Message> {
    if sorted == [] || less(m, sorted[0]) then [m] + sorted
    else [sorted[0]] + Insert(m, sorted[1..], less)
  }

  /** Stable, as the language's own sort is. */
  function StableSort(ms: seq<Message>, less: (Message, Message) -> bool): seq<Message> {
    if ms == [] then [] else Insert(ms[|ms| - 1], StableSort(ms[..|ms| - 1], less), less)
  }

  predicate ByDepth(a: Message, b: Message) {
    a.depth < b.depth || (a.depth == b.depth && a.orderKey < b.orderKey)
  }

  predicate ByBranch(a: Message, b: Message) {
    a.branchIndex < b.branchIndex || (a.branchIndex == b.branchIndex && a.orderKey < b.orderKey)
  }

  // ------------------------------------------------------------------ active path

  predicate Live(m: Message) { m.active && !m.archived }

  function LiveOnes(rs: seq<Message>): seq<Message> {
    if rs == [] then []
    else LiveOnes(rs[..|rs| - 1]) + if Live(rs[|rs| - 1]) then [rs[|rs| - 1]] else []
  }

  function ActivePath(rs: seq<Message>): seq<Message> {
    StableSort(LiveOnes(rs), ByDepth)
  }

  function ActiveLeaf(rs: seq<Message>): Option<Message> {
    var path := ActivePath(rs);
    if path == [] then None else Some(path[|path| - 1])
  }

  // --------------------------------------------------------------------- children

  function ChildrenIn(rs: seq<Message>, parent: Option<string>): seq<Message> {
    if rs == [] then []
    else ChildrenIn(rs[..|rs| - 1], parent) + if rs[|rs| - 1].parent == parent then [rs[|rs| - 1]] else []
  }

  function HighestAfter(siblings: seq<Message>): nat {
    if siblings == [] then 0
    else
      var rest := HighestAfter(siblings[..|siblings| - 1]);
      var last := siblings[|siblings| - 1].branchIndex + 1;
      if last > rest then last else rest
  }

  /** One past the highest branch index among the children, archived ones included. */
  function NextBranchIndex(rs: seq<Message>, parent: Option<string>): nat {
    HighestAfter(ChildrenIn(rs, parent))
  }

  predicate HasActiveChild(rs: seq<Message>, parent: string) {
    exists m :: m in rs && m.parent == Some(parent) && Live(m)
  }

  /** The flag a chain append inherits. */
  predicate ChainedActive(rs: seq<Message>, parent: Message) {
    parent.active && !HasActiveChild(rs, parent.id)
  }

  // --------------------------------------------------------------- activation set

  function Available(rs: seq<Message>): seq<Message> {
    if rs == [] then []
    else Available(rs[..|rs| - 1]) + if rs[|rs| - 1].archived then [] else [rs[|rs| - 1]]
  }

  function Ids(rs: seq<Message>): set<string> {
    set m | m in rs :: m.id
  }

  /** The record a map built from the records holds under the id: the last one. */
  function ById(rs: seq<Message>, id: string): (m: Option<Message>)
    ensures m.Some? ==> m.value in rs && m.value.id == id
    ensures m.None? <==> id !in Ids(rs)
  {
    if rs == [] then None
    else if rs[|rs| - 1].id == id then Some(rs[|rs| - 1])
    else
      assert Ids(rs) == Ids(rs[..|rs| - 1]) + {rs[|rs| - 1].id};
      ById(rs[..|rs| - 1], id)
  }

  /** The message and its ancestors, as far as they are in `av` and not in `seen`. */
  function Climb(av: seq<Message>, at: Option<string>, seen: set<string>): set<string>
    decreases Ids(av) - seen
  {
    if at.None? || at.value in seen then seen
    else
      match ById(av, at.value)
      case None => seen
      case Some(m) => Climb(av, m.parent, seen + {m.id})
  }

  function FirstActive(sorted: seq<Message>): (m: Option<Message>)
    ensures m.Some? ==> m.value in sorted && m.value.active
    ensures m.None? ==> forall s :: s in sorted ==> !s.active
  {
    if sorted == [] then None else if sorted[0].active then Some(sorted[0]) else FirstActive(sorted[1..])
  }

  /** The child a descent takes: one already active, else the lowest branch. */
  function NextChild(av: seq<Message>, id: string): Option<Message> {
    var sorted := StableSort(ChildrenIn(av, Some(id)), ByBranch);
    match FirstActive(sorted)
    case Some(m) => Some(m)
    case None => if sorted == [] then None else Some(sorted[0])
  }

  function Descend(av: seq<Message>, id: string, seen: set<string>): set<string>
    decreases Ids(av) - seen
  {
    match NextChild(av, id)
    case None => seen
    case Some(m) =>
      NextChildIsAChild(av, id);
      if m.id in seen then seen else Descend(av, m.id, seen + {m.id})
  }

  lemma {:induction false} InsertKeeps(m: Message, sorted: seq<Message>, less: (Message, Message) -> bool)
    ensures multiset(Insert(m, sorted, less)) == multiset(sorted) + multiset{m}
  {
    if sorted != [] && !less(m, sorted[0]) {
      InsertKeeps(m, sorted[1..], less);
      assert sorted == [sorted[0]] + sorted[1..];
    }
  }

  lemma {:induction false} SortPermutes(ms: seq<Message>, less: (Message, Message) -> bool)
    ensures multiset(StableSort(ms, less)) == multiset(ms)
  {
    if ms != [] {
      var front, last := ms[..|ms| - 1], ms[|ms| - 1];
      SortPermutes(front, less);
      InsertKeeps(last, StableSort(front, less), less);
      assert ms == front + [last];
    }
  }

  lemma SortKeeps(ms: seq<Message>, less: (Message, Message) -> bool)
    ensures forall m :: m in StableSort(ms, less) <==> m in ms
  {
    SortPermutes(ms, less);
    var sorted := StableSort(ms, less);
    assert forall m :: m in sorted <==> m in multiset(sorted);
    assert forall m :: m in ms <==> m in multiset(ms);
  }

  lemma {:induction false} ChildrenAre(rs: seq<Message>, parent: Option<string>)
    ensures forall m :: m in ChildrenIn(rs, parent) <==> m in rs && m.parent == parent
  {
    if rs != [] {
      ChildrenAre(rs[..|rs| - 1], parent);
      assert rs == rs[..|rs| - 1] + [rs[|rs| - 1]];
    }
  }

  lemma NextChildIsAChild(av: seq<Message>, id: string)
    ensures var m := NextChild(av, id);
            && (m.Some? ==> m.value in av && m.value.parent == Some(id) && m.value.id in Ids(av))
            && (m.None? ==> forall c :: c in av ==> c.parent != Some(id))
            && (m.Some? && !m.value.active ==> forall c :: c in av && c.parent == Some(id) ==> !c.active)
  {
    var kids := ChildrenIn(av, Some(id));
    ChildrenAre(av, Some(id));
    SortKeeps(kids, ByBranch);
    var sorted := StableSort(kids, ByBranch);
    assert sorted != [] ==> sorted[0] in sorted;
    assert forall c :: c in av && c.parent == Some(id) ==> c in sorted;
  }

  function ActivationSet(rs: seq<Message>, id: string): set<string> {
    var av := Available(rs);
    if ById(av, id).None? then {} else Descend(av, id, Climb(av, Some(id), {}))
  }

  function Marked(rs: seq<Message>, ids: set<string>): (marked: seq<Message>)
    ensures |marked| == |rs|
    ensures forall i :: 0 <= i < |rs| ==> marked[i] == rs[i].(active := rs[i].id in ids)
  {
    seq(|rs|, i requires 0 <= i < |rs| => rs[i].(active := rs[i].id in ids))
  }

  /** The two walks, up to the root and down to a leaf. */
  method ActivationSetOf(rs: seq<Message>, id: string) returns (ids: set<string>)
    ensures ids == ActivationSet(rs, id)
  {
    var av := Available(rs);
    ids := {};
    var cursor := ById(av, id);
    while cursor.Some? && cursor.value.id !in ids
      invariant cursor.Some? ==> cursor == ById(av, cursor.value.id)
      invariant Climb(av, Some(id), {}) == if cursor.Some? then Climb(av, Some(cursor.value.id), ids) else ids
      decreases Ids(av) - ids
    {
      ids := ids + {cursor.value.id};
      cursor := match cursor.value.parent case None => None case Some(p) => ById(av, p);
    }
    assert ids == Climb(av, Some(id), {});
    var node := ById(av, id);
    while node.Some?
      invariant ActivationSet(rs, id) == if node.Some? then Descend(av, node.value.id, ids) else ids
      decreases Ids(av) - ids, node.Some?
    {
      NextChildIsAChild(av, node.value.id);
      var next := NextChild(av, node.value.id);
      if next.None? || next.value.id in ids { break; }
      ids := ids + {next.value.id};
      node := next;
    }
  }
}
