/**
 Runs of the conversation store: every chat reads as one conversation after any calls, as long
 as chat ids and message ids are not reused; and what reusing them does.
 */
module ChatRuns {
  import opened RunFence
  import opened Wrappers
  import opened MessageTree
  import opened TreeProofs
  import opened TreeSteps
  import TreePaths
  import opened Conversation
  import opened ChatFiles

  ghost function IsTree(): Good {
    (rs: seq<Message>, top: nat) => Tree(rs, top)
  }

  /** The maps are in step, and every chat's records are a tree with one active path. */
  ghost predicate StoreInv(st: Chats) {
    Filing(st) && AllGood(st, IsTree())
  }

  lemma ChatIsTree(st: Chats, chat: string)
    requires StoreInv(st) && chat in st.chats
    ensures Tree(Rows(st, chat), TopKey(st, chat))
  {
    assert IsTree()(Rows(st, chat), TopKey(st, chat));
  }

  // -------------------------------------------------------------------- appending

  lemma AppendedIsTree(rs: seq<Message>, top: nat, m: Message, activate: bool)
    requires Tree(rs, top) && Attaches(rs, top, m)
    requires !activate ==> m.parent.Some? && m.active == ChainedActive(rs, rs[At(rs, m.parent.value)])
    ensures Tree(Appended(rs, m, activate), m.orderKey)
  {
    if activate {
      AppendSwitches(rs, top, m);
    } else {
      ChainAppendKeepsTree(rs, top, m);
    }
  }

  lemma AppendKeeps(st: Chats, input: AppendInput, fence: Option<Fence>)
    requires StoreInv(st) && AppendMessage(st, input, fence).Ok? && input.id !in st.byId
    ensures StoreInv(AppendMessage(st, input, fence).value)
  {
    ChatIsTree(st, input.chatId);
    UnusedInChat(st, input.chatId, input.id);
    BuiltAttaches(st, input);
    ParentIsListed(st, input);
    AppendedIsTree(Rows(st, input.chatId), TopKey(st, input.chatId), Built(st, input, ParentOf(st, input).value), input.activate);
    AppendIsFiled(st, input, fence, IsTree());
  }

  /** Every chat reads as one conversation. */
  ghost predicate AllTrees(st: Chats) {
    Sound(st) && AllGood(st, IsTree())
  }

  lemma ListsAreDisjoint(st: Chats)
    requires Filing(st)
    ensures ListsDisjoint(st)
  {
    forall c, d | c != d ensures Disjoint(RefsOf(st, c), RefsOf(st, d)) {
      ListsApart(st, d, c);
    }
  }

  lemma AppendKeepsTrees(st: Chats, input: AppendInput, fence: Option<Fence>)
    requires AllTrees(st) && ListsDisjoint(st) && AppendMessage(st, input, fence).Ok?
    requires var rows, m := Rows(st, input.chatId), Built(st, input, ParentOf(st, input).value);
             Attaches(rows, TopKey(st, input.chatId), m)
             && (!input.activate ==> m.parent.Some? && m.active == ChainedActive(rows, rows[At(rows, m.parent.value)]))
    ensures AllTrees(AppendMessage(st, input, fence).value)
  {
    AppendOnlyIn(st, input, fence);
    var chat := input.chatId;
    assert IsTree()(Rows(st, chat), TopKey(st, chat));
    AppendedIsTree(Rows(st, chat), TopKey(st, chat), Built(st, input, ParentOf(st, input).value), input.activate);
    OthersStayGood(st, AppendMessage(st, input, fence).value, chat, IsTree());
  }

  lemma TwiceIsNoTree(rs: seq<Message>, m: Message, activate: bool, top: nat)
    requires m.id in Ids(rs)
    ensures !Tree(Appended(rs, m, activate), top)
  {
    var r :| r in rs && r.id == m.id;
    var i :| 0 <= i < |rs| && rs[i] == r;
    var qs := Appended(rs, m, activate);
    assert qs[i].id == qs[|rs|].id;
  }

  /** An append leaves every chat one conversation exactly if no message of its own chat has the id. */
  lemma AppendKeepsTreesIff(st: Chats, input: AppendInput, fence: Option<Fence>)
    requires StoreInv(st) && AppendMessage(st, input, fence).Ok?
    ensures AllTrees(AppendMessage(st, input, fence).value) <==> input.id !in Ids(Rows(st, input.chatId))
  {
    var chat, st' := input.chatId, AppendMessage(st, input, fence).value;
    var m := Built(st, input, ParentOf(st, input).value);
    ListsAreDisjoint(st);
    if input.id in Ids(Rows(st, chat)) {
      AppendOnlyIn(st, input, fence);
      TwiceIsNoTree(Rows(st, chat), m, input.activate, m.orderKey);
      assert !IsTree()(Rows(st', chat), TopKey(st', chat));
    } else {
      ChatIsTree(st, chat);
      BuiltAttaches(st, input);
      ParentIsListed(st, input);
      AppendKeepsTrees(st, input, fence);
    }
  }

  /** An append keeps the maps in step as well exactly if its id is used nowhere. */
  lemma AppendKeepsIff(st: Chats, input: AppendInput, fence: Option<Fence>)
    requires StoreInv(st) && AppendMessage(st, input, fence).Ok?
    ensures StoreInv(AppendMessage(st, input, fence).value) <==> input.id !in st.byId
  {
    if input.id !in st.byId {
      AppendKeeps(st, input, fence);
    } else {
      AppendMisfilesReused(st, input, fence);
    }
  }

  /** The record an id names. */
  function Named(st: Chats, id: string): Message
    requires Sound(st) && id in st.byId
  {
    st.cells[st.byId[id]]
  }

  lemma NewRecordIsNamed(st: Chats, input: AppendInput, fence: Option<Fence>)
    requires Sound(st) && AppendMessage(st, input, fence).Ok?
    ensures var st' := AppendMessage(st, input, fence).value;
            && Sound(st') && input.id in st'.byId && Named(st', input.id).chatId == input.chatId
            && Named(st', input.id).orderKey == TopKey(st, input.chatId) + 1
  {
    var m := Built(st, input, ParentOf(st, input).value);
    assert Named(Pushed(st, m), input.id) == m;
  }

  /** What misfiling breaks: a used id now names the new message, while the one it named stays in its
      chat, out of reach; if that is another chat, whoever names the message acts on the wrong chat. */
  lemma ReusedIdNamesAnother(st: Chats, input: AppendInput, fence: Option<Fence>)
    requires StoreInv(st) && AppendMessage(st, input, fence).Ok? && input.id in st.byId
    ensures var st' := AppendMessage(st, input, fence).value;
            var d := Named(st, input.id).chatId;
            && Sound(st') && input.id in st'.byId && Named(st', input.id).chatId == input.chatId
            && Named(st', input.id).orderKey == TopKey(st, input.chatId) + 1
            && (d != input.chatId ==> Named(st, input.id) in Rows(st', d))
  {
    NewRecordIsNamed(st, input, fence);
    var d := Named(st, input.id).chatId;
    if d != input.chatId {
      ListsAreDisjoint(st);
      OtherChatKept(st, input, fence, d);
      var i := NamedIsListed(st, input.id);
      assert Rows(st, d)[i] == Named(st, input.id);
    }
  }

  lemma OtherChatKept(st: Chats, input: AppendInput, fence: Option<Fence>, d: string)
    requires Sound(st) && ListsDisjoint(st) && AppendMessage(st, input, fence).Ok? && d != input.chatId
    ensures Rows(AppendMessage(st, input, fence).value, d) == Rows(st, d)
  {
    AppendOnlyIn(st, input, fence);
  }

  // --------------------------------------------------------------- the other calls

  lemma ActivateKeeps(st: Chats, id: string)
    requires StoreInv(st) && ActivatePath(st, id).Ok?
    ensures StoreInv(ActivatePath(st, id).value)
  {
    var i := NamedIsListed(st, id);
    var chat := st.cells[st.byId[id]].chatId;
    ChatIsTree(st, chat);
    SwitchMarksOnePath(Rows(st, chat), TopKey(st, chat), i);
    ActivateIsFiled(st, id, IsTree());
  }

  lemma SubtreeOf(st: Chats, id: string) returns (i: nat)
    requires StoreInv(st) && RequireMessage(st, id).Ok?
    ensures var m := st.cells[st.byId[id]];
            var rows := Rows(st, m.chatId);
            && m.chatId in st.chats && i < |rows| && rows[i] == m && Find(rows, id) == Some(m)
            && (Sweep(rows, [m], {}) == None <==> m.active)
            && (Sweep(rows, [m], {}).Some? ==> Closed(rows, Sweep(rows, [m], {}).value, []) && NoneActive(rows, Sweep(rows, [m], {}).value))
  {
    i := NamedIsListed(st, id);
    var m := st.cells[st.byId[id]];
    var rows := Rows(st, m.chatId);
    ChatIsTree(st, m.chatId);
    assert rows[i] in rows;
    OnlyOne(rows, m);
    SubtreeIs(rows, TopKey(st, m.chatId), i);
  }

  lemma MetByIds(rows: seq<Message>, met: seq<Message>)
    requires DistinctIds(rows) && forall m :: m in met ==> m in rows
    ensures forall m :: m in rows ==> (m in met <==> m.id in Ids(met))
  {
    forall m | m in rows && m.id in Ids(met) ensures m in met {
      var n :| n in met && n.id == m.id;
      OnlyOne(rows, m);
    }
  }

  lemma ArchiveKeeps(st: Chats, id: string)
    requires StoreInv(st) && ArchiveBranch(st, id).Ok?
    ensures StoreInv(ArchiveBranch(st, id).value)
  {
    var i := SubtreeOf(st, id);
    var m := st.cells[st.byId[id]];
    var rows := Rows(st, m.chatId);
    ChatIsTree(st, m.chatId);
    MetIs(rows, [m], {});
    var met, ids := Met(rows, [m], {}).value, Sweep(rows, [m], {}).value;
    ArchiveKeepsTree(rows, TopKey(st, m.chatId), ids);
    MetByIds(rows, met);
    InterredIsFiled(st, m.chatId, met, ids, IsTree());
  }

  /** Archiving a message that is there is refused exactly if it is on the active path. */
  lemma ArchiveRefusedIff(st: Chats, id: string)
    requires StoreInv(st) && RequireMessage(st, id).Ok?
    ensures ArchiveBranch(st, id) == Err(ActiveBranch) <==> st.cells[st.byId[id]].active
    ensures ArchiveBranch(st, id).Ok? <==> !st.cells[st.byId[id]].active
  {
    var i := SubtreeOf(st, id);
    var m := st.cells[st.byId[id]];
    MetIs(Rows(st, m.chatId), [m], {});
  }

  lemma EmptyIsTree(top: nat)
    ensures Tree([], top)
  {
  }

  /** Creating a chat keeps the maps in step exactly if its id names no chat with messages. */
  lemma CreateChatKeepsIff(st: Chats, id: string)
    requires StoreInv(st)
    ensures StoreInv(CreateChat(st, id)) <==> id !in st.chats || RefsOf(st, id) == []
  {
    if id !in st.chats || RefsOf(st, id) == [] {
      EmptyIsTree(TopKey(st, id));
      CreateIsFiled(st, id, IsTree());
    } else {
      CreateMisfilesListed(st, id);
    }
  }

  // ------------------------------------------------------------------------- runs

  datatype ChatOp = NewChat(id: string) | DropChat(id: string) | Append(input: AppendInput, fence: Option<Fence>)
                  | Activate(id: string) | Archive(id: string)

  function Outcome(st: Chats, op: ChatOp): Result<Chats, ChatError>
    requires Sound(st)
  {
    match op
    case NewChat(id) => Ok(CreateChat(st, id))
    case DropChat(id) => DeleteChat(st, id)
    case Append(input, fence) => AppendMessage(st, input, fence)
    case Activate(id) => ActivatePath(st, id)
    case Archive(id) => ArchiveBranch(st, id)
  }

  /** Ids are fresh: the hypothesis the store does not check. */
  predicate FreshIds(st: Chats, op: ChatOp) {
    match op
    case NewChat(id) => id !in st.chats
    case Append(input, _) => input.id !in st.byId
    case _ => true
  }

  predicate Step(st: Chats, op: ChatOp, st': Chats)
    requires Sound(st)
  {
    FreshIds(st, op) && st' == match Outcome(st, op) case Ok(next) => next case Err(_) => st
  }

  lemma StepKeepsStore(st: Chats, op: ChatOp, st': Chats)
    requires StoreInv(st) && Step(st, op, st')
    ensures StoreInv(st')
  {
    if Outcome(st, op).Ok? {
      match op {
        case NewChat(id) => CreateChatKeepsIff(st, id);
        case DropChat(id) => DeleteIsFiled(st, id, IsTree());
        case Append(input, fence) => AppendKeeps(st, input, fence);
        case Activate(id) => ActivateKeeps(st, id);
        case Archive(id) => ArchiveKeeps(st, id);
      }
    }
  }

  ghost predicate Run(states: seq<Chats>, ops: seq<ChatOp>) {
    && |states| == |ops| + 1 && states[0] == NO_CHATS
    && forall i :: 0 <= i < |ops| ==> Sound(states[i]) && Step(states[i], ops[i], states[i + 1])
  }

  lemma {:induction false} RunKeepsStore(states: seq<Chats>, ops: seq<ChatOp>, i: nat)
    requires Run(states, ops) && i < |states|
    ensures StoreInv(states[i])
  {
    if i > 0 {
      var j := i - 1;
      RunKeepsStore(states, ops, j);
      assert Step(states[j], ops[j], states[j + 1]);
      StepKeepsStore(states[j], ops[j], states[i]);
    }
  }

  /**
   After any calls, each chat reads as one conversation from a root to a leaf, and paging
   backward through it with any page size returns exactly that.
   */
  lemma EveryChatReadsAsOne(states: seq<Chats>, ops: seq<ChatOp>, i: nat, chat: string, size: nat)
    requires Run(states, ops) && i < |states| && chat in states[i].chats && size >= 1
    ensures Sound(states[i])
    ensures var rows := Rows(states[i], chat);
            var ms := ActivePath(rows);
            && TreePaths.RootedChain(ms) && TreePaths.EndsInLeaf(ms, rows)
            && (rows != [] ==> ms != [])
            && (forall m :: m in ms <==> m in rows && Live(m))
            && TreePaths.ScrollBack(rows, None, size) == ms
  {
    RunKeepsStore(states, ops, i);
    ChatIsTree(states[i], chat);
    var rows, top := Rows(states[i], chat), TopKey(states[i], chat);
    TreePaths.ActivePathIsOneChain(rows, top);
    TreePaths.PagesJoinUp(rows, top, size);
  }

  // ------------------------------------------------------------------ reused ids

  lemma AloneSwitches(m: Message)
    requires m.parent.Some? && m.parent.value != m.id && !m.archived
    ensures ActivationSet([m], m.id) == {m.id}
  {
    var av := [m];
    assert [m][..0] == [];
    assert Available([m]) == Available([]) + [m] == av;
    assert ById(av, m.id) == Some(m);
    assert ById([], m.parent.value) == None && ById(av, m.parent.value) == None;
    assert Climb(av, Some(m.id), {}) == Climb(av, m.parent, {} + {m.id}) == {m.id};
    NextChildIsAChild(av, m.id);
    assert NextChild(av, m.id) == None;
  }

  lemma AloneReads(m: Message)
    requires Live(m)
    ensures ActivePath([m]) == [m]
  {
    assert [m][..0] == [];
    assert LiveOnes([m]) == LiveOnes([]) + [m] == [m];
    assert StableSort([m], ByDepth) == Insert(m, StableSort([], ByDepth), ByDepth) == [m];
  }

  lemma MarkedAlone(m: Message)
    requires m.active
    ensures Marked([m], {m.id}) == [m]
  {
  }

  lemma FirstInList(st: Chats, m: Message)
    requires Sound(st) && RefsOf(st, m.chatId) == [] && Live(m) && m.parent.Some? && m.parent.value != m.id
    ensures ActivePath(Rows(Switched(Pushed(st, m), m.chatId, m.id), m.chatId)) == [m]
  {
    RowsPushed(st, m);
    assert Rows(Pushed(st, m), m.chatId) == [m];
    AloneSwitches(m);
    SwitchedRows(Pushed(st, m), m.chatId, m.id);
    MarkedAlone(m);
    AloneReads(m);
  }

  lemma FirstTwoRoots(m: Message, n: Message)
    requires m.id == n.id && m.parent == n.parent == None && !m.archived && !n.archived
    ensures ActivationSet([m, n], n.id) == {n.id}
  {
    var av := [m, n];
    assert [m, n][..1] == [m] && [m][..0] == [];
    assert Available([m]) == Available([]) + [m] == [m];
    assert Available(av) == [m] + [n] == av;
    assert ById(av, n.id) == Some(n);
    assert Climb(av, Some(n.id), {}) == Climb(av, None, {} + {n.id}) == {n.id};
    NextChildIsAChild(av, n.id);
    assert NextChild(av, n.id) == None;
  }

  lemma TwoRootsRead(m: Message, n: Message)
    requires Live(m) && Live(n) && m.depth == n.depth && m.orderKey < n.orderKey
    ensures ActivePath([m, n]) == [m, n]
  {
    assert [m, n][..1] == [m] && [m][..0] == [] && [m][1..] == [];
    assert LiveOnes([m]) == LiveOnes([]) + [m] == [m];
    assert LiveOnes([m, n]) == [m] + [n];
    assert StableSort([m], ByDepth) == Insert(m, StableSort([], ByDepth), ByDepth) == [m];
    assert Insert(n, [m], ByDepth) == [m] + Insert(n, [], ByDepth) == [m, n];
  }

  /** A chat of one message, and a second root with its id: the chat reads as two roots, one after
      the other. */
  lemma ReusedIdShowsTwoRoots(st: Chats, m: Message, input: AppendInput)
    requires StoreInv(st) && m.chatId in st.chats && Rows(st, m.chatId) == [m] && Live(m) && m.parent == None
    requires input.id == m.id && input.chatId == m.chatId && input.parent == Root && input.activate
    ensures AppendMessage(st, input, None).Ok?
    ensures var st' := AppendMessage(st, input, None).value;
            Sound(st') && var path := ActivePath(Rows(st', m.chatId));
            |path| == 2 && path[0].parent == path[1].parent == None && path[0].id == path[1].id
  {
    var n := Built(st, input, None);
    ChatIsTree(st, m.chatId);
    ListsAreDisjoint(st);
    AppendOnlyIn(st, input, None);
    assert Linked([m], 0);
    TwoRoots(m, n);
  }

  lemma TwoRoots(m: Message, n: Message)
    requires m.id == n.id && m.parent == n.parent == None && Live(m) && Live(n)
    requires m.depth == n.depth && m.orderKey < n.orderKey
    ensures ActivePath(Appended([m], n, true)) == [m, n]
  {
    assert [m] + [n] == [m, n];
    FirstTwoRoots(m, n);
    assert Marked([m, n], {n.id}) == [m, n];
    TwoRootsRead(m, n);
  }

  lemma ParentSurvives(st: Chats, chat: string, parent: Message, input: AppendInput)
    requires Filing(st) && chat in st.chats && parent in Rows(st, chat) && !parent.archived
    requires input.chatId == chat && input.parent == Under(parent.id) && input.id !in st.byId
    ensures ParentOf(CreateChat(st, chat), input) == Ok(Some(parent)) && parent.id in st.byId
  {
    var i :| 0 <= i < |Rows(st, chat)| && Rows(st, chat)[i] == parent;
    RowAt(st, chat, i);
  }

  lemma AppendUnder(st: Chats, input: AppendInput, parent: Message)
    requires Sound(st) && input.activate && input.chatId in st.chats && ParentOf(st, input) == Ok(Some(parent))
    ensures AppendMessage(st, input, None) == Ok(Switched(Pushed(st, Built(st, input, Some(parent))), input.chatId, input.id))
  {
  }

  /**
   A chat created again under its id forgets its list but not its messages: a message appended
   under one of them is a conversation of one message that starts at no root.
   */
  lemma RecreatedChatLosesItsRoot(st: Chats, chat: string, parent: Message, input: AppendInput)
    requires Filing(st) && chat in st.chats && parent in Rows(st, chat) && !parent.archived
    requires input.chatId == chat && input.parent == Under(parent.id) && input.activate && input.id !in st.byId
    ensures var st1 := CreateChat(st, chat);
            && AppendMessage(st1, input, None).Ok?
            && var path := ActivePath(Rows(AppendMessage(st1, input, None).value, chat));
               |path| == 1 && path[0].parent == Some(parent.id)
  {
    var st1 := CreateChat(st, chat);
    ParentSurvives(st, chat, parent, input);
    AppendUnder(st1, input, parent);
    FirstInList(st1, Built(st1, input, Some(parent)));
  }

  // ---------------------------------------------- when a chat created again breaks

  /** A next append, under an id that was never used, is accepted and leaves a chat that is not one conversation. */
  ghost predicate BreaksNext(st: Chats, input: AppendInput, fence: Option<Fence>) {
    Sound(st) && AppendMessage(st, input, fence).Ok? && input.id !in st.byId && !AllTrees(AppendMessage(st, input, fence).value)
  }

  lemma RecreatedTrees(st: Chats, id: string)
    requires StoreInv(st)
    ensures var st1 := CreateChat(st, id);
            && AllTrees(st1) && ListsDisjoint(st1) && Rows(st1, id) == []
            && forall c {:trigger Rows(st1, c)} :: c != id ==> Rows(st1, c) == Rows(st, c) && TopKey(st1, c) == TopKey(st, c)
  {
    var st1 := CreateChat(st, id);
    ListsAreDisjoint(st);
    assert Rows(st1, id) == [];
    forall c, d | c != d ensures Disjoint(RefsOf(st1, c), RefsOf(st1, d)) {
      assert c != id && d != id ==> Disjoint(RefsOf(st, c), RefsOf(st, d));
    }
    forall c | c != id ensures Rows(st1, c) == Rows(st, c) && TopKey(st1, c) == TopKey(st, c) { SameRows(st, st1, c); }
    EmptyIsTree(TopKey(st1, id));
    OthersStayGood(st, st1, id, IsTree());
  }

  lemma ForgottenIsListed(st: Chats, chat: string, id: string)
    requires Filing(st) && id in st.byId && st.cells[st.byId[id]].chatId == chat
    ensures st.cells[st.byId[id]] in Rows(st, chat)
  {
    var i := NamedIsListed(st, id);
  }

  /** In the chat created again, with nothing forgotten but archived messages, only a root can be appended. */
  lemma OnlyRootsRemain(st: Chats, id: string, input: AppendInput, fence: Option<Fence>)
    requires StoreInv(st) && forall m :: m in Rows(st, id) ==> m.archived
    requires input.chatId == id && AppendMessage(CreateChat(st, id), input, fence).Ok?
    ensures ParentOf(CreateChat(st, id), input) == Ok(None) && input.activate
  {
    var st1 := CreateChat(st, id);
    RecreatedTrees(st, id);
    if input.parent.Under? && NamedParent(st1, id, input.parent.id).Ok? {
      ForgottenIsListed(st, id, input.parent.id);
    }
    assert ActiveLeaf([]) == None;
  }

  lemma RecreatedKeepsRoot(st: Chats, id: string, input: AppendInput, fence: Option<Fence>)
    requires StoreInv(st) && forall m :: m in Rows(st, id) ==> m.archived
    requires AppendMessage(CreateChat(st, id), input, fence).Ok? && input.chatId == id
    ensures AllTrees(AppendMessage(CreateChat(st, id), input, fence).value)
  {
    var st1 := CreateChat(st, id);
    RecreatedTrees(st, id);
    OnlyRootsRemain(st, id, input, fence);
    assert Attaches([], TopKey(st1, id), Built(st1, input, None));
    AppendKeepsTrees(st1, input, fence);
  }

  lemma OthersReadAlike(st: Chats, id: string, input: AppendInput)
    requires StoreInv(st) && input.chatId != id
    ensures var st1 := CreateChat(st, id);
            && Rows(st1, input.chatId) == Rows(st, input.chatId) && TopKey(st1, input.chatId) == TopKey(st, input.chatId)
            && ParentOf(st1, input) == ParentOf(st, input)
            && forall parent :: Built(st1, input, parent) == Built(st, input, parent)
  {
    SameRows(st, CreateChat(st, id), input.chatId);
  }

  lemma BuiltFits(st: Chats, input: AppendInput, fence: Option<Fence>)
    requires StoreInv(st) && AppendMessage(st, input, fence).Ok? && input.id !in st.byId
    ensures var rows, m := Rows(st, input.chatId), Built(st, input, ParentOf(st, input).value);
            Attaches(rows, TopKey(st, input.chatId), m)
            && (!input.activate ==> m.parent.Some? && m.active == ChainedActive(rows, rows[At(rows, m.parent.value)]))
  {
    ChatIsTree(st, input.chatId);
    UnusedInChat(st, input.chatId, input.id);
    BuiltAttaches(st, input);
    ParentIsListed(st, input);
  }

  lemma RecreatedKeepsOther(st: Chats, id: string, input: AppendInput, fence: Option<Fence>)
    requires StoreInv(st) && AppendMessage(CreateChat(st, id), input, fence).Ok? && input.id !in st.byId && input.chatId != id
    ensures AllTrees(AppendMessage(CreateChat(st, id), input, fence).value)
  {
    OthersReadAlike(st, id, input);
    BuiltFits(st, input, fence);
    RecreatedTrees(st, id);
    AppendKeepsTrees(CreateChat(st, id), input, fence);
  }

  lemma RootlessIsNoTree(rs: seq<Message>, top: nat)
    requires ActivePath(rs) != [] && ActivePath(rs)[0].parent.Some?
    ensures !Tree(rs, top)
  {
    if Tree(rs, top) {
      TreePaths.ActivePathIsOneChain(rs, top);
    }
  }

  lemma ForgottenBreaks(st: Chats, id: string, m: Message, input: AppendInput)
    requires StoreInv(st) && id in st.chats && m in Rows(st, id) && !m.archived
    requires input.chatId == id && input.parent == Under(m.id) && input.activate && input.id !in st.byId
    ensures BreaksNext(CreateChat(st, id), input, None)
  {
    RecreatedChatLosesItsRoot(st, id, m, input);
    RecreatedTrees(st, id);
    AppendOnlyIn(CreateChat(st, id), input, None);
    var st2 := AppendMessage(CreateChat(st, id), input, None).value;
    RootlessIsNoTree(Rows(st2, id), TopKey(st2, id));
    assert !IsTree()(Rows(st2, id), TopKey(st2, id));
  }

  lemma NothingForgottenNeverBreaks(st: Chats, id: string, input: AppendInput, fence: Option<Fence>)
    requires StoreInv(st) && forall m :: m in Rows(st, id) ==> m.archived
    ensures !BreaksNext(CreateChat(st, id), input, fence)
  {
    if Sound(CreateChat(st, id)) && AppendMessage(CreateChat(st, id), input, fence).Ok? && input.id !in st.byId {
      if input.chatId == id {
        RecreatedKeepsRoot(st, id, input, fence);
      } else {
        RecreatedKeepsOther(st, id, input, fence);
      }
    }
  }

  /** After a chat was created again under its id, some append of a fresh message breaks a chat exactly
      if a message that was forgotten is not archived. */
  lemma RecreatedChatBreaksIff(st: Chats, id: string)
    requires StoreInv(st) && id in st.chats
    ensures (exists input, fence :: BreaksNext(CreateChat(st, id), input, fence))
            <==> exists m :: m in Rows(st, id) && !m.archived
  {
    if m :| m in Rows(st, id) && !m.archived {
      var unused := UnusedString(st.byId.Keys);
      ForgottenBreaks(st, id, m, AppendInput(unused, id, None, "", Under(m.id), true));
    } else {
      forall input, fence ensures !BreaksNext(CreateChat(st, id), input, fence) {
        NothingForgottenNeverBreaks(st, id, input, fence);
      }
    }
  }
}
