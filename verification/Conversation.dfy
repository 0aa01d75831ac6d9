/**
 The in-memory conversation store: its maps, and what each call does to them.

 A record is an object that the list of its chat and the id map share, so the model keeps the
 objects in a table (`cells`) and both maps hold positions in it. Titles, search, forks and
 imports are not part of this model.
 */
module Conversation {
  import opened RunFence
  import opened Wrappers
  import opened MessageTree
  import opened TreeSteps
  import TreePaths

  datatype Chats = Chats(cells: seq<Message>, byId: map<string, nat>, byChat: map<string, seq<nat>>,
                         orderKeys: map<string, nat>, chats: set<string>)

  const NO_CHATS := Chats([], map[], map[], map[], {})

  datatype ChatError = NotFound | InvalidAppend | LeaseLost | ActiveBranch | InvalidCursor

  /** The maps refer to objects that exist. */
  predicate InRange(cells: seq<Message>, refs: seq<nat>) {
    forall k :: 0 <= k < |refs| ==> refs[k] < |cells|
  }

  predicate Sound(st: Chats) {
    && (forall id :: id in st.byId ==> st.byId[id] < |st.cells|)
    && (forall c :: c in st.byChat ==> InRange(st.cells, st.byChat[c]))
  }

  function Records(cells: seq<Message>, refs: seq<nat>): (ms: seq<Message>)
    requires InRange(cells, refs)
    ensures |ms| == |refs| && forall k :: 0 <= k < |refs| ==> ms[k] == cells[refs[k]]
  {
    seq(|refs|, k requires 0 <= k < |refs| => cells[refs[k]])
  }

  function RefsOf(st: Chats, chat: string): seq<nat> {
    if chat in st.byChat then st.byChat[chat] else []
  }

  /** The records of a chat, in append order. */
  function Rows(st: Chats, chat: string): seq<Message>
    requires Sound(st)
  {
    Records(st.cells, RefsOf(st, chat))
  }

  function TopKey(st: Chats, chat: string): nat {
    if chat in st.orderKeys then st.orderKeys[chat] else 0
  }

  // ------------------------------------------------------------------------- chats

  function CreateChat(st: Chats, id: string): Chats {
    st.(chats := st.chats + {id}, byChat := st.byChat[id := []])
  }

  function DeleteChat(st: Chats, id: string): Result<Chats, ChatError>
    requires Sound(st)
  {
    if id !in st.chats then Err(NotFound)
    else Ok(Chats(st.cells, st.byId - Ids(Rows(st, id)), st.byChat - {id}, st.orderKeys - {id}, st.chats - {id}))
  }

  // ---------------------------------------------------------------------- messages

  /** Where to hang a message: from the active leaf, as a new root, or from a named message. */
  datatype Parent = Leaf | Root | Under(id: string)

  datatype AppendInput = AppendInput(id: string, chatId: string, runId: Option<string>, body: string,
                                     parent: Parent, activate: bool)

  function NamedParent(st: Chats, chat: string, id: string): Result<Message, ChatError>
    requires Sound(st)
  {
    if id !in st.byId then Err(NotFound)
    else
      var m := st.cells[st.byId[id]];
      if m.chatId != chat || m.archived then Err(NotFound) else Ok(m)
  }

  function ParentOf(st: Chats, input: AppendInput): Result<Option<Message>, ChatError>
    requires Sound(st)
  {
    match input.parent
    case Leaf => Ok(ActiveLeaf(Rows(st, input.chatId)))
    case Root => Ok(None)
    case Under(id) =>
      match NamedParent(st, input.chatId, id)
      case Err(e) => Err(e)
      case Ok(m) => Ok(Some(m))
  }

  /** The record an append builds. */
  function Built(st: Chats, input: AppendInput, parent: Option<Message>): Message
    requires Sound(st)
  {
    var rows := Rows(st, input.chatId);
    var parentId := if parent.Some? then Some(parent.value.id) else None;
    Message(input.id, input.chatId, input.runId, input.body, TopKey(st, input.chatId) + 1, parentId,
            if parent.Some? then parent.value.depth + 1 else 0,
            NextBranchIndex(rows, parentId),
            input.activate || (parent.Some? && ChainedActive(rows, parent.value)), false)
  }

  predicate Fenced(input: AppendInput, fence: Option<Fence>) {
    fence.Some? && (!fence.value.holds || input.runId != Some(fence.value.taskId))
  }

  function Pushed(st: Chats, m: Message): (st': Chats)
    requires Sound(st)
    ensures Sound(st')
  {
    var ref := |st.cells|;
    Chats(st.cells + [m], st.byId[m.id := ref], st.byChat[m.chatId := RefsOf(st, m.chatId) + [ref]],
          st.orderKeys[m.chatId := m.orderKey], st.chats)
  }

  /** The objects of the list with their active flag rewritten, every other object as it was. */
  function Flagged(cells: seq<Message>, refs: seq<nat>, ids: set<string>): (out: seq<Message>)
    ensures |out| == |cells|
    ensures forall r :: 0 <= r < |cells| ==> out[r] == if r in refs then cells[r].(active := cells[r].id in ids) else cells[r]
  {
    seq(|cells|, r requires 0 <= r < |cells| => if r in refs then cells[r].(active := cells[r].id in ids) else cells[r])
  }

  function Switched(st: Chats, chat: string, id: string): (st': Chats)
    requires Sound(st)
    ensures Sound(st')
  {
    st.(cells := Flagged(st.cells, RefsOf(st, chat), ActivationSet(Rows(st, chat), id)))
  }

  function AppendMessage(st: Chats, input: AppendInput, fence: Option<Fence>): Result<Chats, ChatError>
    requires Sound(st)
  {
    if Fenced(input, fence) then Err(LeaseLost)
    else if !input.activate && !input.parent.Under? then Err(InvalidAppend)
    else if input.chatId !in st.chats then Err(NotFound)
    else
      match ParentOf(st, input)
      case Err(e) => Err(e)
      case Ok(parent) =>
        var pushed := Pushed(st, Built(st, input, parent));
        Ok(if input.activate then Switched(pushed, input.chatId, input.id) else pushed)
  }

  function RequireMessage(st: Chats, id: string): Result<Message, ChatError>
    requires Sound(st)
  {
    if id !in st.byId || st.cells[st.byId[id]].archived then Err(NotFound) else Ok(st.cells[st.byId[id]])
  }

  function ActivatePath(st: Chats, id: string): Result<Chats, ChatError>
    requires Sound(st)
  {
    match RequireMessage(st, id)
    case Err(e) => Err(e)
    case Ok(m) => Ok(Switched(st, m.chatId, id))
  }

  function Find(rs: seq<Message>, id: string): (m: Option<Message>)
    ensures m.Some? ==> m.value in rs && m.value.id == id
    ensures m.None? ==> forall r :: r in rs ==> r.id != id
  {
    if rs == [] then None else if rs[0].id == id then Some(rs[0]) else Find(rs[1..], id)
  }

  /** The objects of the list among these records archived; their order keys tell them apart. */
  function Interred(cells: seq<Message>, refs: seq<nat>, met: seq<Message>): (out: seq<Message>)
    ensures |out| == |cells|
    ensures forall r :: 0 <= r < |cells| ==>
              out[r] == cells[r].(archived := cells[r].archived || (r in refs && cells[r] in met))
  {
    seq(|cells|, r requires 0 <= r < |cells| => cells[r].(archived := cells[r].archived || (r in refs && cells[r] in met)))
  }

  function ArchiveBranch(st: Chats, id: string): Result<Chats, ChatError>
    requires Sound(st)
  {
    match RequireMessage(st, id)
    case Err(e) => Err(e)
    case Ok(m) =>
      var rows := Rows(st, m.chatId);
      match Find(rows, id)
      case None => Err(NotFound)
      case Some(target) =>
        if target.archived then Err(NotFound)
        else
          match Met(rows, [target], {})
          case None => Err(ActiveBranch)
          case Some(met) => Ok(st.(cells := Interred(st.cells, RefsOf(st, m.chatId), met)))
  }

  // ------------------------------------------------------------------------- class

  function After(met: seq<Message>, more: Option<seq<Message>>): Option<seq<Message>> {
    match more
    case None => None
    case Some(ms) => Some(met + ms)
  }

  lemma AfterNone(more: Option<seq<Message>>)
    ensures After([], more) == more
  {
    if more.Some? {
      assert [] + more.value == more.value;
    }
  }

  lemma AfterMore(met: seq<Message>, m: Message, more: Option<seq<Message>>)
    ensures After(met, match more case None => None case Some(ms) => Some([m] + ms)) == After(met + [m], more)
  {
    if more.Some? {
      assert met + ([m] + more.value) == (met + [m]) + more.value;
    }
  }

  class MemoryConversationStore {
    var cells: seq<Message>
    var messagesById: map<string, nat>
    var messagesByChat: map<string, seq<nat>>
    var orderKeys: map<string, nat>
    var chats: set<string>

    function View(): Chats
      reads this
    {
      Chats(cells, messagesById, messagesByChat, orderKeys, chats)
    }

    predicate Valid()
      reads this
    {
      Sound(View())
    }

    constructor ()
      ensures Valid() && View() == NO_CHATS
    {
      cells, messagesById, messagesByChat, orderKeys, chats := [], map[], map[], map[], {};
    }

    method Create(id: string)
      requires Valid()
      modifies this
      ensures Valid() && View() == CreateChat(old(View()), id)
    {
      chats := chats + {id};
      messagesByChat := messagesByChat[id := []];
    }

    /** Drops the chat, its list, and each of its messages. */
    method Delete(id: string) returns (outcome: Result<(), ChatError>)
      requires Valid()
      modifies this
      ensures Valid()
      ensures match DeleteChat(old(View()), id)
              case Err(e) => outcome == Err(e) && View() == old(View())
              case Ok(st) => outcome == Ok(()) && View() == st
    {
      if id !in chats { return Err(NotFound); }
      var list := if id in messagesByChat then messagesByChat[id] else [];
      for i := 0 to |list|
        invariant Valid() && cells == old(cells) && messagesByChat == old(messagesByChat)
        invariant orderKeys == old(orderKeys) && chats == old(chats)
        invariant messagesById == old(messagesById) - Ids(Records(cells, list[..i]))
      {
        assert list[..i + 1] == list[..i] + [list[i]];
        IdsGrow(cells, list[..i], list[i]);
        messagesById := messagesById - {cells[list[i]].id};
      }
      assert list[..|list|] == list;
      messagesByChat := messagesByChat - {id};
      orderKeys := orderKeys - {id};
      chats := chats - {id};
      return Ok(());
    }

    method FlagAll(list: seq<nat>, active: set<string>)
      requires InRange(cells, list)
      modifies this`cells
      ensures cells == Flagged(old(cells), list, active)
    {
      for i := 0 to |list|
        invariant |cells| == |old(cells)|
        invariant forall r :: 0 <= r < |cells| ==>
                    cells[r] == if r in list[..i] then old(cells)[r].(active := old(cells)[r].id in active) else old(cells)[r]
      {
        assert list[..i + 1] == list[..i] + [list[i]];
        cells := cells[list[i] := cells[list[i]].(active := cells[list[i]].id in active)];
      }
      assert list[..|list|] == list;
    }

    /** Rewrites every active flag of one chat, record by record. */
    method ApplyActivation(chat: string, id: string)
      requires Valid()
      modifies this`cells
      ensures Valid() && View() == Switched(old(View()), chat, id)
    {
      var list := if chat in messagesByChat then messagesByChat[chat] else [];
      var active := ActivationSetOf(Records(cells, list), id);
      FlagAll(list, active);
    }

    method Push(record: Message)
      requires Valid()
      modifies this
      ensures Valid() && View() == Pushed(old(View()), record)
    {
      var ref := |cells|;
      var refs := (if record.chatId in messagesByChat then messagesByChat[record.chatId] else []) + [ref];
      orderKeys := orderKeys[record.chatId := record.orderKey];
      cells := cells + [record];
      messagesById := messagesById[record.id := ref];
      messagesByChat := messagesByChat[record.chatId := refs];
    }

    method Append(input: AppendInput, fence: Option<Fence>) returns (outcome: Result<Message, ChatError>)
      requires Valid()
      modifies this
      ensures Valid()
      ensures match AppendMessage(old(View()), input, fence)
              case Err(e) => outcome == Err(e) && View() == old(View())
              case Ok(st) => View() == st && |cells| == |old(cells)| + 1 && outcome == Ok(cells[|old(cells)|])
    {
      if fence.Some? && !fence.value.holds { return Err(LeaseLost); }
      if fence.Some? && input.runId != Some(fence.value.taskId) { return Err(LeaseLost); }
      if !input.activate && !input.parent.Under? { return Err(InvalidAppend); }
      if input.chatId !in chats { return Err(NotFound); }
      var list := Rows(View(), input.chatId);
      var found := ParentOf(View(), input);
      if found.Err? { return Err(found.error); }
      var parent := found.value;
      var parentId := if parent.Some? then Some(parent.value.id) else None;
      var orderKey := TopKey(View(), input.chatId) + 1;
      var record := Message(input.id, input.chatId, input.runId, input.body, orderKey, parentId,
                            if parent.Some? then parent.value.depth + 1 else 0,
                            NextBranchIndex(list, parentId),
                            if !input.activate then parent.Some? && ChainedActive(list, parent.value) else true,
                            false);
      ghost var st := View();
      assert record == Built(st, input, parent) && !Fenced(input, fence) && ParentOf(st, input) == Ok(parent);
      assert AppendMessage(st, input, fence)
             == Ok(if input.activate then Switched(Pushed(st, record), input.chatId, input.id) else Pushed(st, record));
      var ref := |cells|;
      Push(record);
      if input.activate {
        ApplyActivation(input.chatId, record.id);
      }
      return Ok(cells[ref]);
    }

    /** The path as it is after the switch. */
    method Activate(id: string) returns (outcome: Result<seq<Message>, ChatError>)
      requires Valid()
      modifies this`cells
      ensures Valid()
      ensures match ActivatePath(old(View()), id)
              case Err(e) => outcome == Err(e) && View() == old(View())
              case Ok(st) => View() == st && outcome == Ok(ActivePath(Rows(st, cells[messagesById[id]].chatId)))
    {
      if id !in messagesById || cells[messagesById[id]].archived { return Err(NotFound); }
      var chat := cells[messagesById[id]].chatId;
      ApplyActivation(chat, id);
      return Ok(ActivePath(Rows(View(), chat)));
    }

    /** The walk over the subtree, checked whole before any flag changes. */
    method SubtreeOf(rows: seq<Message>, target: Message) returns (subtree: Option<seq<Message>>)
      requires target in rows
      ensures subtree == Met(rows, [target], {})
    {
      var met, pending, seen, index := [], [target], {}, 0;
      assert pending[0..] == pending;
      AfterNone(Met(rows, pending, {}));
      while index < |pending|
        invariant index <= |pending| && forall m :: m in pending ==> m in rows
        invariant Met(rows, [target], {}) == After(met, Met(rows, pending[index..], seen))
        decreases Ids(rows) - seen, |pending| - index
      {
        var record := pending[index];
        assert pending[index..][1..] == pending[index + 1..];
        if record.id !in seen {
          if record.active { return None; }
          seen := seen + {record.id};
          var children := ChildrenIn(rows, Some(record.id));
          ChildrenAre(rows, Some(record.id));
          assert (pending + children)[index + 1..] == pending[index + 1..] + children;
          assert record.id in Ids(rows);
          AfterMore(met, record, Met(rows, pending[index + 1..] + children, seen));
          pending, met := pending + children, met + [record];
        }
        index := index + 1;
      }
      assert met + [] == met;
      return Some(met);
    }

    method ArchiveAll(list: seq<nat>, met: seq<Message>)
      requires InRange(cells, list)
      modifies this`cells
      ensures cells == Interred(old(cells), list, met)
    {
      for i := 0 to |list|
        invariant |cells| == |old(cells)|
        invariant forall r :: 0 <= r < |cells| ==>
                    cells[r] == old(cells)[r].(archived := old(cells)[r].archived || (r in list[..i] && old(cells)[r] in met))
      {
        assert list[..i + 1] == list[..i] + [list[i]];
        if cells[list[i]] in met {
          cells := cells[list[i] := cells[list[i]].(archived := true)];
        }
      }
      assert list[..|list|] == list;
    }

    method Archive(id: string) returns (outcome: Result<(), ChatError>)
      requires Valid()
      modifies this`cells
      ensures Valid()
      ensures match ArchiveBranch(old(View()), id)
              case Err(e) => outcome == Err(e) && View() == old(View())
              case Ok(st) => outcome == Ok(()) && View() == st
    {
      if id !in messagesById || cells[messagesById[id]].archived { return Err(NotFound); }
      var chat := cells[messagesById[id]].chatId;
      var list := if chat in messagesByChat then messagesByChat[chat] else [];
      var target := Find(Records(cells, list), id);
      if target.None? || target.value.archived { return Err(NotFound); }
      var subtree := SubtreeOf(Records(cells, list), target.value);
      if subtree.None? { return Err(ActiveBranch); }
      ArchiveAll(list, subtree.value);
      return Ok(());
    }

    /** Both cursors cut the active path; the limit keeps what is nearest its end. */
    method List(chat: string, opts: TreePaths.ListOptions) returns (outcome: Result<seq<Message>, ChatError>)
      requires Valid()
      ensures outcome.Ok? <==> TreePaths.ListMessages(Rows(View(), chat), opts).Ok?
      ensures outcome.Ok? ==> outcome.value == TreePaths.ListMessages(Rows(View(), chat), opts).value
      ensures outcome.Err? ==> outcome.error == InvalidCursor
    {
      if opts.after.Some? && opts.before.Some? {
        return Err(InvalidCursor);
      }
      var rows := ActivePath(Records(cells, if chat in messagesByChat then messagesByChat[chat] else []));
      if opts.after.Some? {
        rows := TreePaths.KeysAbove(rows, opts.after.value);
      }
      if opts.before.Some? {
        rows := TreePaths.KeysBelow(rows, opts.before.value);
      }
      if opts.limit.Some? {
        rows := TreePaths.SliceFromEnd(rows, opts.limit.value);
      }
      return Ok(rows);
    }
  }

  lemma IdsGrow(cells: seq<Message>, refs: seq<nat>, r: nat)
    requires InRange(cells, refs + [r]) && InRange(cells, refs) && r < |cells|
    ensures Ids(Records(cells, refs + [r])) == Ids(Records(cells, refs)) + {cells[r].id}
  {
    assert Records(cells, refs + [r]) == Records(cells, refs) + [cells[r]];
  }
}
