/** The calls of the conversation store, each told by what can be read before and after it. */
module ChatCalls {
  import opened RunFence
  import opened Wrappers
  import opened MessageTree
  import opened TreeProofs
  import opened TreeSteps
  import TreePaths
  import opened Conversation
  import opened ChatFiles
  import opened ChatRuns
  import opened ChatSteps

  /** The chat holds a message of that id that is not archived. */
  ghost predicate Holds(st: Chats, chat: string, id: string)
    requires Sound(st)
  {
    exists m :: m in Rows(st, chat) && m.id == id && !m.archived
  }

  lemma HoldsIs(st: Chats, chat: string, id: string)
    requires Filing(st)
    ensures Holds(st, chat, id) <==> NamedParent(st, chat, id).Ok?
    ensures NamedParent(st, chat, id).Ok? ==> NamedParent(st, chat, id).value.id == id
  {
    if Holds(st, chat, id) {
      var m :| m in Rows(st, chat) && m.id == id && !m.archived;
      var i :| 0 <= i < |Rows(st, chat)| && Rows(st, chat)[i] == m;
      RowAt(st, chat, i);
    }
    if id in st.byId {
      var i := NamedIsListed(st, id);
    }
  }

  /** Written outside the run, or by the task that holds the lease of the run it names. */
  predicate MayWrite(input: AppendInput, fence: Option<Fence>) {
    fence == None || (fence.value.holds && input.runId == Some(fence.value.taskId))
  }

  /** Exactly these messages are taken: of a writer who may, not inactive without a parent named, in a chat
      that exists, under a parent of that chat that is not archived. The first of these that fails is told. */
  lemma AppendedIff(st: Chats, input: AppendInput, fence: Option<Fence>)
    requires Filing(st)
    ensures AppendMessage(st, input, fence).Ok? <==>
            && MayWrite(input, fence) && (input.activate || input.parent.Under?) && input.chatId in st.chats
            && (input.parent.Under? ==> Holds(st, input.chatId, input.parent.id))
    ensures AppendMessage(st, input, fence) == Err(LeaseLost) <==> !MayWrite(input, fence)
    ensures AppendMessage(st, input, fence) == Err(InvalidAppend) <==>
            MayWrite(input, fence) && !input.activate && (input.parent.Leaf? || input.parent.Root?)
  {
    if input.parent.Under? {
      HoldsIs(st, input.chatId, input.parent.id);
    }
  }

  // --------------------------------------------------------------------- the new message

  /** One past the highest branch among the children, archived ones included; 0 for the first. */
  ghost predicate NextBranch(rows: seq<Message>, parent: Option<string>, branch: nat) {
    && (forall m :: m in rows && m.parent == parent ==> m.branchIndex < branch)
    && (branch > 0 ==> exists m :: m in rows && m.parent == parent && m.branchIndex == branch - 1)
  }

  lemma {:induction false} HighestIs(ms: seq<Message>)
    ensures forall m :: m in ms ==> m.branchIndex < HighestAfter(ms)
    ensures HighestAfter(ms) > 0 ==> exists m :: m in ms && m.branchIndex == HighestAfter(ms) - 1
  {
    if ms != [] {
      var front, last := ms[..|ms| - 1], ms[|ms| - 1];
      HighestIs(front);
      assert ms == front + [last] && last in ms;
      if HighestAfter(front) > 0 {
        var m :| m in front && m.branchIndex == HighestAfter(front) - 1;
        assert m in ms;
      }
    }
  }

  lemma NextBranchIs(rows: seq<Message>, parent: Option<string>)
    ensures NextBranch(rows, parent, NextBranchIndex(rows, parent))
  {
    ChildrenAre(rows, parent);
    HighestIs(ChildrenIn(rows, parent));
  }

  /** What was submitted, in its place: last in order, and on a branch of its own. */
  ghost predicate Written(rows: seq<Message>, input: AppendInput, m: Message) {
    && m.id == input.id && m.chatId == input.chatId && m.runId == input.runId && m.body == input.body && !m.archived
    && m.parent == Asked(rows, input.parent)
    && (forall n :: n in rows ==> n.orderKey < m.orderKey)
    && NextBranch(rows, m.parent, m.branchIndex)
  }

  /** The last message shown, if there is one. */
  function LastShown(rows: seq<Message>): Option<string> {
    var path := ActivePath(rows);
    if path == [] then None else Some(path[|path| - 1].id)
  }

  function Asked(rows: seq<Message>, parent: Parent): Option<string> {
    match parent
    case Leaf => LastShown(rows)
    case Root => None
    case Under(id) => Some(id)
  }

  /** How the chat reads after an append. */
  ghost predicate Shows(rows: seq<Message>, after: seq<Message>, input: AppendInput, m: Message) {
    var was, now := ActivePath(rows), ActivePath(after);
    if input.activate then
      && now != [] && now[|now| - 1] == m
      && (input.parent == Leaf ==> now == was + [m])
      && (input.parent == Root ==> now == [m])
    else now == if m.parent == LastShown(rows) then was + [m] else was
  }

  lemma BuiltIs(st: Chats, input: AppendInput)
    requires StoreInv(st) && input.chatId in st.chats && ParentOf(st, input).Ok?
    ensures Written(Rows(st, input.chatId), input, Built(st, input, ParentOf(st, input).value))
  {
    var rows := Rows(st, input.chatId);
    ChatIsTree(st, input.chatId);
    NextBranchIs(rows, Asked(rows, input.parent));
    if input.parent.Under? {
      HoldsIs(st, input.chatId, input.parent.id);
    }
    forall n | n in rows ensures n.orderKey <= TopKey(st, input.chatId) {
      var i :| 0 <= i < |rows| && rows[i] == n;
    }
  }

  lemma RowsShow(rows: seq<Message>, top: nat, input: AppendInput, m: Message)
    requires Tree(rows, top) && Attaches(rows, top, m) && m.parent == Asked(rows, input.parent)
    requires input.activate || (m.parent.Some? && m.active == ChainedActive(rows, rows[At(rows, m.parent.value)]))
    requires input.activate ==> m.active
    ensures Shows(rows, Appended(rows, m, input.activate), input, m)
  {
    assert m.(active := m.active) == m;
    if input.activate {
      NewMessageIsLast(rows, top, m);
      if input.parent == Leaf {
        GrowsAtTheEnd(rows, top, m);
      }
    } else {
      ChainedIsShownIff(rows, top, m);
    }
  }

  lemma AppendedRows(rows: seq<Message>, top: nat, m: Message, activate: bool)
    requires Tree(rows, top) && Attaches(rows, top, m) && (activate ==> m.active)
    ensures var after := Appended(rows, m, activate);
            && |after| == |rows| + 1 && after[|rows|] == m
            && forall i :: 0 <= i < |rows| ==> after[i] == rows[i].(active := after[i].active)
  {
    assert (rows + [m])[|rows|] == m;
    if activate {
      AppendSwitches(rows, top, m);
    }
  }

  /** A message that is taken is written as it was submitted, in its place, and shown as it should; the other
      messages change in what is shown of them at most, and the other chats not at all. */
  lemma AppendIs(st: Chats, input: AppendInput, fence: Option<Fence>)
    requires StoreInv(st) && AppendMessage(st, input, fence).Ok? && input.id !in st.byId
    ensures var st' := AppendMessage(st, input, fence).value;
            var rows, after := Rows(st, input.chatId), Rows(st', input.chatId);
            && |after| == |rows| + 1
            && (forall i :: 0 <= i < |rows| ==> after[i] == rows[i].(active := after[i].active))
            && Written(rows, input, after[|rows|]) && Shows(rows, after, input, after[|rows|])
            && (forall c {:trigger Rows(st', c)} :: c != input.chatId ==> Rows(st', c) == Rows(st, c))
            && st'.chats == st.chats
  {
    var rows, top := Rows(st, input.chatId), TopKey(st, input.chatId);
    var m := Built(st, input, ParentOf(st, input).value);
    ListsAreDisjoint(st);
    AppendOnlyIn(st, input, fence);
    ChatIsTree(st, input.chatId);
    UnusedInChat(st, input.chatId, input.id);
    BuiltAttaches(st, input);
    ParentIsListed(st, input);
    BuiltIs(st, input);
    AppendedRows(rows, top, m, input.activate);
    RowsShow(rows, top, input, m);
  }

  // -------------------------------------------------------------------- the other calls

  /** A switch is made exactly to a message that is there and not archived, and is shown as a switch shows;
      to one that is shown already, it changes nothing. */
  lemma ActivatedIs(st: Chats, id: string) returns (i: nat, path: seq<nat>)
    requires StoreInv(st)
    ensures ActivatePath(st, id).Ok? <==> id in st.byId && !Named(st, id).archived
    ensures ActivatePath(st, id).Ok? ==>
              var chat, st' := Named(st, id).chatId, ActivatePath(st, id).value;
              var rows, shown := Rows(st, chat), ActivePath(Rows(st', chat));
              && i < |rows| && rows[i] == Named(st, id) && Indices(rows, path) && PicksDown(rows, path, i) && i in path
              && |shown| == |path| && (forall k :: 0 <= k < |path| ==> shown[k] == rows[path[k]].(active := true))
              && (rows[i].active ==> Rows(st', chat) == rows)
              && (forall c {:trigger Rows(st', c)} :: c != chat ==> Rows(st', c) == Rows(st, c))
  {
    i, path := 0, [];
    if ActivatePath(st, id).Ok? {
      var chat := Named(st, id).chatId;
      i := NamedIsListed(st, id);
      ChatIsTree(st, chat);
      SwitchedIsFiled(st, chat, id);
      path := SwitchShows(Rows(st, chat), TopKey(st, chat), i);
      if Rows(st, chat)[i].active {
        SwitchToShown(Rows(st, chat), TopKey(st, chat), i);
      }
    }
  }

  lemma InterredOnlyIn(st: Chats, chat: string, met: seq<Message>, c: string)
    requires Filing(st) && c != chat
    ensures Rows(st.(cells := Interred(st.cells, RefsOf(st, chat), met)), c) == Rows(st, c)
  {
    ListsApart(st, chat, c);
    var st' := st.(cells := Interred(st.cells, RefsOf(st, chat), met));
    forall k | 0 <= k < |RefsOf(st, c)| ensures st'.cells[RefsOf(st, c)[k]] == st.cells[RefsOf(st, c)[k]] {
      assert RefsOf(st, c)[k] in RefsOf(st, c);
    }
  }

  lemma InterredRows(st: Chats, chat: string, met: seq<Message>, ids: set<string>)
    requires Filing(st) && forall m :: m in Rows(st, chat) ==> (m in met <==> m.id in ids)
    ensures Rows(st.(cells := Interred(st.cells, RefsOf(st, chat), met)), chat) == Archived(Rows(st, chat), ids)
  {
    var st' := st.(cells := Interred(st.cells, RefsOf(st, chat), met));
    forall k | 0 <= k < |RefsOf(st, chat)| ensures Rows(st', chat)[k] == Archived(Rows(st, chat), ids)[k] {
      assert RefsOf(st, chat)[k] in RefsOf(st, chat) && Rows(st, chat)[k] in Rows(st, chat);
    }
  }

  /** Message `i` and all that hangs from it are archived, and nothing else of the chat changes. */
  predicate BuriesFrom(rows: seq<Message>, after: seq<Message>, i: nat) {
    && i < |rows| && AllLinked(rows) && |after| == |rows|
    && forall k :: 0 <= k < |rows| ==> after[k] == rows[k].(archived := rows[k].archived || Above(rows, i, k))
  }

  lemma SweepBuries(rows: seq<Message>, top: nat, i: nat)
    requires Tree(rows, top) && i < |rows| && !rows[i].active
    ensures Sweep(rows, [rows[i]], {}).Some? && BuriesFrom(rows, Archived(rows, Sweep(rows, [rows[i]], {}).value), i)
  {
    SubtreeIs(rows, top, i);
  }

  lemma MetBuries(st: Chats, chat: string, i: nat)
    requires StoreInv(st) && chat in st.chats && i < |Rows(st, chat)| && !Rows(st, chat)[i].active
    ensures var rows := Rows(st, chat);
            && rows[i] in rows && Met(rows, [rows[i]], {}).Some?
            && BuriesFrom(rows, Rows(st.(cells := Interred(st.cells, RefsOf(st, chat), Met(rows, [rows[i]], {}).value)), chat), i)
  {
    var rows := Rows(st, chat);
    ChatIsTree(st, chat);
    SweepBuries(rows, TopKey(st, chat), i);
    MetIs(rows, [rows[i]], {});
    var met, ids := Met(rows, [rows[i]], {}).value, Sweep(rows, [rows[i]], {}).value;
    MetByIds(rows, met);
    assert {} + Ids(met) == Ids(met);
    InterredRows(st, chat, met, ids);
  }

  /** An archive is made exactly of a message that is there, not archived and not shown. */
  lemma ArchivedIff(st: Chats, id: string)
    requires StoreInv(st)
    ensures ArchiveBranch(st, id).Ok? <==> id in st.byId && !Named(st, id).archived && !Named(st, id).active
  {
    if RequireMessage(st, id).Ok? {
      ArchiveRefusedIff(st, id);
    }
  }

  /** It archives that message and all that hangs from it, and changes nothing else anywhere. */
  lemma ArchivedIs(st: Chats, id: string) returns (i: nat)
    requires StoreInv(st) && ArchiveBranch(st, id).Ok?
    ensures var chat, st' := Named(st, id).chatId, ArchiveBranch(st, id).value;
            && Sound(st') && BuriesFrom(Rows(st, chat), Rows(st', chat), i) && Rows(st, chat)[i] == Named(st, id)
            && (forall c {:trigger Rows(st', c)} :: c != chat ==> Rows(st', c) == Rows(st, c))
  {
    ArchivedIff(st, id);
    var m := Named(st, id);
    i := SubtreeOf(st, id);
    MetBuries(st, m.chatId, i);
    forall c | c != m.chatId ensures Rows(ArchiveBranch(st, id).value, c) == Rows(st, c) {
      InterredOnlyIn(st, m.chatId, Met(Rows(st, m.chatId), [m], {}).value, c);
    }
  }

  /** A delete takes away a chat that exists, with the ids of all its messages; the other chats keep theirs. */
  lemma DeletedIs(st: Chats, chat: string)
    requires StoreInv(st)
    ensures DeleteChat(st, chat).Ok? <==> chat in st.chats
    ensures DeleteChat(st, chat).Ok? ==>
              var st' := DeleteChat(st, chat).value;
              && Sound(st') && st'.chats == st.chats - {chat} && Rows(st', chat) == []
              && (forall c {:trigger Rows(st', c)} :: c != chat ==> Rows(st', c) == Rows(st, c))
              && (forall id :: id in st'.byId <==> id in st.byId && Named(st, id).chatId != chat)
              && (forall id :: id in st'.byId ==> Named(st', id) == Named(st, id))
  {
    if chat in st.chats {
      DeleteIsFiled(st, chat, IsTree());
      var st' := DeleteChat(st, chat).value;
      forall id | id in st.byId ensures id in Ids(Rows(st, chat)) <==> Named(st, id).chatId == chat {
        var i := NamedIsListed(st, id);
        if Named(st, id).chatId == chat {
          assert Rows(st, chat)[i] in Rows(st, chat);
        } else if id in Ids(Rows(st, chat)) {
          var m :| m in Rows(st, chat) && m.id == id;
          var k :| 0 <= k < |Rows(st, chat)| && Rows(st, chat)[k] == m;
          RowAt(st, chat, k);
        }
      }
    }
  }
}
