/**
 Reading a chat: its active path is one chain, and pages taken backward from its end join up to
 exactly that path.
 */
module TreePaths {
  import opened Wrappers
  import opened MessageTree
  import opened TreeProofs

  // ------------------------------------------------------------- the path as read

  /** The records at some indices. */
  function Records(rs: seq<Message>, path: seq<nat>): (ms: seq<Message>)
    requires Indices(rs, path)
    ensures |ms| == |path| && forall k :: 0 <= k < |path| ==> ms[k] == rs[path[k]]
  {
    seq(|path|, k requires 0 <= k < |path| => rs[path[k]])
  }

  predicate Climbing(path: seq<nat>) {
    forall j, k :: 0 <= j < k < |path| ==> path[j] < path[k]
  }

  /** Along a path from a root, depth counts up and the records come in append order. */
  lemma {:induction false} PathRises(rs: seq<Message>, path: seq<nat>)
    requires DistinctIds(rs) && AllLinked(rs) && path != [] && Chain(rs, path) && rs[path[0]].parent == None
    ensures Climbing(path) && forall k :: 0 <= k < |path| ==> rs[path[k]].depth == k
    decreases |path|
  {
    var n := |path| - 1;
    assert Linked(rs, path[n]);
    if n > 0 {
      var front := path[..n];
      assert Chain(rs, front);
      PathRises(rs, front);
      var j := n - 1;
      assert rs[path[j + 1]].parent == Some(rs[path[j]].id);
      AtIs(rs, path[j]);
      assert front[j] == path[j];
    }
  }

  /** The path covers exactly the live records. */
  predicate Covers(rs: seq<Message>, path: seq<nat>) {
    && Climbing(path) && (path == [] || path[|path| - 1] < |rs|)
    && forall i :: 0 <= i < |rs| ==> (Live(rs[i]) <==> i in path)
  }

  lemma CoversFront(rs: seq<Message>, path: seq<nat>)
    requires rs != [] && Covers(rs, path)
    ensures var n := |rs| - 1;
            if Live(rs[n]) then path != [] && path[|path| - 1] == n && Covers(rs[..n], path[..|path| - 1])
            else Covers(rs[..n], path)
  {
    var n := |rs| - 1;
    if Live(rs[n]) {
      LastIsHighest(path, n);
      FrontCovers(path, n);
    }
  }

  lemma RecordsSame(rs: seq<Message>, front: seq<Message>, path: seq<nat>)
    requires rs != [] && front == rs[..|rs| - 1] && Indices(rs, path) && Climbing(path)
    requires path == [] || path[|path| - 1] < |front|
    ensures Indices(front, path) && Records(rs, path) == Records(front, path)
  {
  }

  lemma RecordsLonger(rs: seq<Message>, front: seq<Message>, short: seq<nat>, path: seq<nat>)
    requires rs != [] && front == rs[..|rs| - 1] && Indices(rs, path) && Climbing(path)
    requires path == short + [|front|]
    ensures Indices(front, short) && Records(rs, path) == Records(front, short) + [rs[|front|]]
  {
    forall k | 0 <= k < |short| ensures short[k] < |front| && short[k] == path[k] {
      assert path[k] < path[|short|];
    }
  }

  lemma {:induction false} LiveOnesAre(rs: seq<Message>, path: seq<nat>)
    requires Indices(rs, path) && Covers(rs, path)
    ensures LiveOnes(rs) == Records(rs, path)
  {
    if rs == [] {
      assert path == [];
    } else {
      var n := |rs| - 1;
      var front := rs[..n];
      CoversFront(rs, path);
      if Live(rs[n]) {
        var short := path[..|path| - 1];
        assert path == short + [n];
        RecordsLonger(rs, front, short, path);
        LiveOnesAre(front, short);
      } else {
        RecordsSame(rs, front, path);
        LiveOnesAre(front, path);
      }
    }
  }

  lemma FrontCovers(path: seq<nat>, n: nat)
    requires Climbing(path) && path != [] && path[|path| - 1] == n
    ensures var front := path[..|path| - 1];
            Climbing(front) && (forall k :: 0 <= k < |front| ==> front[k] < n)
            && forall i :: 0 <= i < n ==> (i in path <==> i in front)
  {
    assert path == path[..|path| - 1] + [n];
  }

  lemma LastIsHighest(path: seq<nat>, n: nat)
    requires Climbing(path) && n in path && (forall k :: 0 <= k < |path| ==> path[k] <= n)
    ensures path != [] && path[|path| - 1] == n
  {
  }

  predicate Ascending(ms: seq<Message>) {
    forall j, k :: 0 <= j < k < |ms| ==> ByDepth(ms[j], ms[k])
  }

  lemma {:induction false} InsertLast(m: Message, sorted: seq<Message>)
    requires forall k :: 0 <= k < |sorted| ==> ByDepth(sorted[k], m)
    ensures Insert(m, sorted, ByDepth) == sorted + [m]
  {
    if sorted != [] {
      assert ByDepth(sorted[0], m);
      InsertLast(m, sorted[1..]);
    }
  }

  lemma {:induction false} SortOfSorted(ms: seq<Message>)
    requires Ascending(ms)
    ensures StableSort(ms, ByDepth) == ms
  {
    if ms != [] {
      var front := ms[..|ms| - 1];
      SortOfSorted(front);
      InsertLast(ms[|ms| - 1], front);
      assert front + [ms[|ms| - 1]] == ms;
    }
  }

  lemma ActivePathIs(rs: seq<Message>, path: seq<nat>)
    requires DistinctIds(rs) && AllLinked(rs) && Buried(rs) && RootToLeaf(rs, path) && Marks(rs, path)
    ensures ActivePath(rs) == Records(rs, path) && Climbing(path)
    ensures forall k :: 0 <= k < |path| ==> rs[path[k]].depth == k
  {
    PathRises(rs, path);
    LiveOnesAre(rs, path);
    SortOfSorted(Records(rs, path));
  }

  /** The messages are a chain from a root: parent links, depths and order keys all rise. */
  predicate RootedChain(ms: seq<Message>) {
    && (forall k :: 0 <= k < |ms| ==> ms[k].depth == k && Live(ms[k]))
    && (ms != [] ==> ms[0].parent == None)
    && (forall k :: 0 <= k < |ms| - 1 ==> ms[k + 1].parent == Some(ms[k].id))
    && (forall j, k :: 0 <= j < k < |ms| ==> ms[j].orderKey < ms[k].orderKey)
  }

  lemma PathIsRootedChain(rs: seq<Message>, top: nat, path: seq<nat>, ms: seq<Message>)
    requires KeysRise(rs, top) && RootToLeaf(rs, path) && Marks(rs, path) && Climbing(path) && ms == Records(rs, path)
    requires forall k :: 0 <= k < |path| ==> rs[path[k]].depth == k
    ensures RootedChain(ms)
  {
    assert forall k :: 0 <= k < |path| ==> path[k] in path;
  }

  /** Nothing live hangs from the last message. */
  predicate EndsInLeaf(ms: seq<Message>, rs: seq<Message>) {
    ms == [] || forall m :: m in rs && m.parent == Some(ms[|ms| - 1].id) ==> m.archived
  }

  /**
   A chat reads as one conversation: every live message, and no other, on one chain that starts
   at a root and ends at a message nothing live hangs from; empty only if the chat is.
   */
  lemma ActivePathIsOneChain(rs: seq<Message>, top: nat)
    requires Tree(rs, top)
    ensures var ms := ActivePath(rs);
            && RootedChain(ms) && EndsInLeaf(ms, rs)
            && (rs != [] ==> ms != [])
            && (forall m :: m in ms <==> m in rs && Live(m))
  {
    if rs != [] {
      var path: seq<nat> :| RootToLeaf(rs, path) && Marks(rs, path);
      ActivePathIs(rs, path);
      PathIsRootedChain(rs, top, path, Records(rs, path));
      LiveAreOnPath(rs, path, Records(rs, path));
    }
  }

  lemma LiveAreOnPath(rs: seq<Message>, path: seq<nat>, ms: seq<Message>)
    requires Indices(rs, path) && Marks(rs, path) && ms == Records(rs, path)
    ensures forall m :: m in ms <==> m in rs && Live(m) && m in ms
    ensures forall m :: m in rs && Live(m) ==> m in ms
  {
    forall m | m in rs && Live(m) ensures m in ms {
      var i :| 0 <= i < |rs| && rs[i] == m;
      var k :| 0 <= k < |path| && path[k] == i;
      assert ms[k] == m;
    }
    forall m | m in ms ensures m in rs && Live(m) {
      var k :| 0 <= k < |ms| && ms[k] == m;
      assert path[k] in path;
    }
  }

  // ------------------------------------------------------------------------- pages

  datatype ListOptions = ListOptions(after: Option<int>, before: Option<int>, limit: Option<int>)

  datatype ListError = InvalidCursor

  function KeysAbove(ms: seq<Message>, key: int): seq<Message> {
    if ms == [] then []
    else (if ms[0].orderKey > key then [ms[0]] else []) + KeysAbove(ms[1..], key)
  }

  function KeysBelow(ms: seq<Message>, key: int): seq<Message> {
    if ms == [] then []
    else (if ms[0].orderKey < key then [ms[0]] else []) + KeysBelow(ms[1..], key)
  }

  /** slice(-n): the last n elements, but all of them for n = 0, and what follows -n for negative n. */
  function SliceFromEnd<T>(xs: seq<T>, n: int): seq<T> {
    if n > |xs| then xs
    else if n > 0 then xs[|xs| - n..]
    else if -n > |xs| then []
    else xs[-n..]
  }

  function ListMessages(rs: seq<Message>, opts: ListOptions): Result<seq<Message>, ListError> {
    if opts.after.Some? && opts.before.Some? then Err(InvalidCursor)
    else
      var path := ActivePath(rs);
      var above := if opts.after.Some? then KeysAbove(path, opts.after.value) else path;
      var below := if opts.before.Some? then KeysBelow(above, opts.before.value) else above;
      Ok(if opts.limit.Some? then SliceFromEnd(below, opts.limit.value) else below)
  }

  function Page(rs: seq<Message>, before: Option<int>, size: nat): seq<Message> {
    ListMessages(rs, ListOptions(None, before, Some(size))).value
  }

  /** A client's scroll back: page after page, each before the first message it already has. */
  function ScrollBack(rs: seq<Message>, before: Option<int>, size: nat): seq<Message>
    requires size >= 1
    decreases Remaining(rs, before)
  {
    var page := Page(rs, before, size);
    if |page| < size then page
    else
      PageAdvances(rs, before, size);
      ScrollBack(rs, Some(page[0].orderKey), size) + page
  }

  function Remaining(rs: seq<Message>, before: Option<int>): nat {
    match before
    case None => |ActivePath(rs)| + 1
    case Some(b) => |KeysBelow(ActivePath(rs), b)|
  }

  lemma {:induction false} BelowAre(ms: seq<Message>, key: int)
    ensures forall m :: m in KeysBelow(ms, key) <==> m in ms && m.orderKey < key
    ensures |KeysBelow(ms, key)| <= |ms|
  {
    if ms != [] {
      BelowAre(ms[1..], key);
    }
  }

  lemma {:induction false} FewerBelow(ms: seq<Message>, low: int, high: int)
    requires low <= high
    ensures |KeysBelow(ms, low)| <= |KeysBelow(ms, high)|
    ensures (exists m :: m in ms && low <= m.orderKey < high) ==> |KeysBelow(ms, low)| < |KeysBelow(ms, high)|
  {
    if ms != [] {
      FewerBelow(ms[1..], low, high);
    }
  }

  lemma PageAdvances(rs: seq<Message>, before: Option<int>, size: nat)
    requires 1 <= size <= |Page(rs, before, size)|
    ensures Remaining(rs, Some(Page(rs, before, size)[0].orderKey)) < Remaining(rs, before)
  {
    var path, first := ActivePath(rs), Page(rs, before, size)[0];
    BelowAre(path, first.orderKey);
    if before.Some? {
      BelowAre(path, before.value);
      assert first in KeysBelow(path, before.value);
      FewerBelow(path, first.orderKey, before.value);
    }
  }

  predicate KeysAscend(ms: seq<Message>) {
    forall j, k :: 0 <= j < k < |ms| ==> ms[j].orderKey < ms[k].orderKey
  }

  /** On rising keys, the records below a record's key are the ones before it. */
  lemma {:induction false} BelowIsPrefix(ms: seq<Message>, n: nat)
    requires KeysAscend(ms) && n < |ms|
    ensures KeysBelow(ms, ms[n].orderKey) == ms[..n]
  {
    if n > 0 {
      BelowIsPrefix(ms[1..], n - 1);
      assert ms[..n] == [ms[0]] + ms[1..][..n - 1];
    } else {
      NoneBelow(ms, ms[0].orderKey);
    }
  }

  lemma {:induction false} NoneBelow(ms: seq<Message>, key: int)
    requires forall k :: 0 <= k < |ms| ==> ms[k].orderKey >= key
    ensures KeysBelow(ms, key) == []
  {
    if ms != [] {
      NoneBelow(ms[1..], key);
    }
  }

  /** The cursor a client holds when the first `n` messages of the path are still to be read. */
  predicate CursorAt(path: seq<Message>, before: Option<int>, n: nat) {
    if before.None? then n == |path| else n < |path| && before.value == path[n].orderKey
  }

  lemma PageIs(rs: seq<Message>, before: Option<int>, size: nat, n: nat)
    requires size >= 1 && KeysAscend(ActivePath(rs)) && n <= |ActivePath(rs)|
    requires CursorAt(ActivePath(rs), before, n)
    ensures Page(rs, before, size) == ActivePath(rs)[if n > size then n - size else 0..n]
  {
    var path := ActivePath(rs);
    if before.Some? {
      BelowIsPrefix(path, n);
    } else {
      assert path[..n] == path;
    }
    assert Page(rs, before, size) == SliceFromEnd(path[..n], size);
  }

  lemma {:induction false} ScrollFrom(rs: seq<Message>, before: Option<int>, size: nat, n: nat)
    requires size >= 1 && KeysAscend(ActivePath(rs)) && n <= |ActivePath(rs)|
    requires CursorAt(ActivePath(rs), before, n)
    ensures ScrollBack(rs, before, size) == ActivePath(rs)[..n]
    decreases n
  {
    var page := Page(rs, before, size);
    PageIs(rs, before, size, n);
    if n >= size {
      var m := n - size;
      ScrollFrom(rs, Some(page[0].orderKey), size, m);
      Adjoin(ActivePath(rs), m, n);
    }
  }

  lemma Adjoin(ms: seq<Message>, m: nat, n: nat)
    requires m <= n <= |ms|
    ensures ms[..m] + ms[m..n] == ms[..n]
  {
  }

  /**
   Paging backward, with any page size, joins up to exactly the active path: nothing twice and
   nothing left out.
   */
  lemma PagesJoinUp(rs: seq<Message>, top: nat, size: nat)
    requires Tree(rs, top) && size >= 1
    ensures ScrollBack(rs, None, size) == ActivePath(rs)
  {
    ActivePathIsOneChain(rs, top);
    var path := ActivePath(rs);
    ScrollFrom(rs, None, size, |path|);
    assert path[..|path|] == path;
  }

  /** A page size of zero asks for everything, not for nothing. */
  lemma PageOfZero(rs: seq<Message>)
    ensures ListMessages(rs, ListOptions(None, None, Some(0))) == Ok(ActivePath(rs))
  {
    assert ActivePath(rs)[0..] == ActivePath(rs);
  }

  lemma {:induction false} AllAbove(ms: seq<Message>, key: int)
    requires forall k :: 0 <= k < |ms| ==> ms[k].orderKey > key
    ensures KeysAbove(ms, key) == ms
  {
    if ms != [] {
      AllAbove(ms[1..], key);
      assert ms == [ms[0]] + ms[1..];
    }
  }

  lemma {:induction false} AboveIsSuffix(ms: seq<Message>, key: int) returns (lo: nat)
    requires KeysAscend(ms)
    ensures lo <= |ms| && KeysAbove(ms, key) == ms[lo..]
    ensures forall k :: 0 <= k < |ms| ==> (k < lo <==> ms[k].orderKey <= key)
  {
    lo := 0;
    if ms == [] || ms[0].orderKey > key {
      AllAbove(ms, key);
    } else {
      var n := AboveIsSuffix(ms[1..], key);
      lo := n + 1;
      assert [] + KeysAbove(ms[1..], key) == ms[lo..];
      forall k | 0 < k < |ms| ensures k < lo <==> ms[k].orderKey <= key {
        assert ms[1..][k - 1] == ms[k];
      }
    }
  }

  lemma {:induction false} BelowIsFront(ms: seq<Message>, key: int) returns (hi: nat)
    requires KeysAscend(ms)
    ensures hi <= |ms| && KeysBelow(ms, key) == ms[..hi]
    ensures forall k :: 0 <= k < |ms| ==> (k < hi <==> ms[k].orderKey < key)
  {
    if ms == [] {
      hi := 0;
    } else {
      var n := BelowIsFront(ms[1..], key);
      hi := if ms[0].orderKey < key then n + 1 else 0;
      if ms[0].orderKey >= key {
        assert |ms| > 1 ==> ms[1..][0] == ms[1];
      } else {
        assert [ms[0]] + ms[1..][..n] == ms[..n + 1];
      }
      forall k | 0 < k < |ms| ensures k < hi <==> ms[k].orderKey < key {
        assert ms[1..][k - 1] == ms[k];
      }
    }
  }

  /** The message lies strictly between the cursors given. */
  predicate Between(m: Message, opts: ListOptions) {
    && (opts.after.Some? ==> opts.after.value < m.orderKey)
    && (opts.before.Some? ==> m.orderKey < opts.before.value)
  }

  lemma CursorsCut(path: seq<Message>, opts: ListOptions) returns (lo: nat, hi: nat)
    requires KeysAscend(path) && !(opts.after.Some? && opts.before.Some?)
    ensures lo <= hi <= |path| && forall k :: 0 <= k < |path| ==> (lo <= k < hi <==> Between(path[k], opts))
    ensures var above := if opts.after.Some? then KeysAbove(path, opts.after.value) else path;
            (if opts.before.Some? then KeysBelow(above, opts.before.value) else above) == path[lo..hi]
  {
    lo, hi := 0, |path|;
    if opts.after.Some? {
      lo := AboveIsSuffix(path, opts.after.value);
    } else if opts.before.Some? {
      hi := BelowIsFront(path, opts.before.value);
    }
  }

  /** Of the messages from `first` to `hi`, where the page starts: at the last `limit` of them; at the
      first for no limit or 0; and past as many as a negative limit says. */
  function PageStart(first: nat, hi: nat, limit: Option<int>): (lo: nat)
    requires first <= hi
    ensures first <= lo <= hi
  {
    if limit.None? then first
    else if limit.value > 0 then if limit.value < hi - first then hi - limit.value else first
    else if -limit.value < hi - first then first - limit.value else hi
  }

  lemma SliceIsPage(path: seq<Message>, first: nat, hi: nat, limit: int)
    requires first <= hi <= |path|
    ensures SliceFromEnd(path[first..hi], limit) == path[PageStart(first, hi, Some(limit))..hi]
  {
  }

  /**
   What a listing is. Two cursors at once are refused. Else it is one stretch of the conversation:
   of the messages between the cursors, the page the limit says.
   */
  lemma ListingIsAStretch(rs: seq<Message>, top: nat, opts: ListOptions) returns (first: nat, hi: nat)
    requires Tree(rs, top)
    ensures ListMessages(rs, opts).Err? <==> opts.after.Some? && opts.before.Some?
    ensures ListMessages(rs, opts).Ok? ==>
              var path := ActivePath(rs);
              && first <= hi <= |path|
              && (forall k :: 0 <= k < |path| ==> (first <= k < hi <==> Between(path[k], opts)))
              && ListMessages(rs, opts) == Ok(path[PageStart(first, hi, opts.limit)..hi])
  {
    first, hi := 0, 0;
    if !(opts.after.Some? && opts.before.Some?) {
      ActivePathIsOneChain(rs, top);
      first, hi := CursorsCut(ActivePath(rs), opts);
      if opts.limit.Some? {
        SliceIsPage(ActivePath(rs), first, hi, opts.limit.value);
      }
    }
  }
}
