/**
 How the store's maps stay in step: every record sits in the list of its own chat, and is the
 one its id names. What a list's records must satisfy (`good`) is left open here.
 */
module ChatFiles {
  import opened RunFence
  import opened Wrappers
  import opened MessageTree
  import opened TreeProofs
  import opened TreeSteps
  import opened Conversation

  /** What is asked of a chat's records and its highest order key. */
  type Good = (seq<Message>, nat) -> bool

  /** The records of a list are of that chat, and are the ones their ids name. */
  predicate Filed(st: Chats, chat: string)
    requires Sound(st)
  {
    forall k :: 0 <= k < |RefsOf(st, chat)| ==> FiledAt(st, chat, RefsOf(st, chat)[k])
  }

  predicate FiledAt(st: Chats, chat: string, ref: nat) {
    ref < |st.cells| && st.cells[ref].chatId == chat
    && st.cells[ref].id in st.byId && st.byId[st.cells[ref].id] == ref
  }

  predicate Listed(st: Chats, id: string)
    requires Sound(st) && id in st.byId
  {
    var m := st.cells[st.byId[id]];
    m.id == id && st.byId[id] in RefsOf(st, m.chatId)
  }

  ghost predicate Filing(st: Chats) {
    && Sound(st) && st.byChat.Keys == st.chats && st.orderKeys.Keys <= st.chats
    && (forall id {:trigger Listed(st, id)} :: id in st.byId ==> Listed(st, id))
    && (forall c {:trigger Filed(st, c)} :: Filed(st, c))
  }

  ghost predicate AllGood(st: Chats, good: Good)
    requires Sound(st)
  {
    forall c {:trigger Rows(st, c)} :: c in st.chats ==> good(Rows(st, c), TopKey(st, c))
  }

  // ------------------------------------------------------------------------- rows

  lemma SameRows(st: Chats, st': Chats, chat: string)
    requires Sound(st) && Sound(st') && RefsOf(st, chat) == RefsOf(st', chat)
    requires forall k :: 0 <= k < |RefsOf(st, chat)| ==> st.cells[RefsOf(st, chat)[k]] == st'.cells[RefsOf(st, chat)[k]]
    ensures Rows(st, chat) == Rows(st', chat)
  {
  }

  lemma RowAt(st: Chats, chat: string, i: nat)
    requires Filing(st) && i < |Rows(st, chat)|
    ensures var m := Rows(st, chat)[i];
            m.chatId == chat && m.id in st.byId && st.cells[st.byId[m.id]] == m && st.byId[m.id] == RefsOf(st, chat)[i]
  {
    assert Filed(st, chat);
    assert FiledAt(st, chat, RefsOf(st, chat)[i]);
  }

  lemma NamedIsListed(st: Chats, id: string) returns (i: nat)
    requires Filing(st) && id in st.byId
    ensures var m := st.cells[st.byId[id]];
            && m.chatId in st.chats && m.id == id
            && i < |Rows(st, m.chatId)| && Rows(st, m.chatId)[i] == m && RefsOf(st, m.chatId)[i] == st.byId[id]
  {
    assert Listed(st, id);
    var refs := RefsOf(st, st.cells[st.byId[id]].chatId);
    i :| 0 <= i < |refs| && refs[i] == st.byId[id];
  }

  /** The lists of two different chats share no record. */
  lemma ListsApart(st: Chats, c: string, d: string)
    requires Filing(st) && c != d
    ensures forall r :: r in RefsOf(st, d) ==> r !in RefsOf(st, c)
  {
    forall r | r in RefsOf(st, d) ensures st.cells[r].chatId == d { RefIsFiled(st, d, r); }
    forall r | r in RefsOf(st, c) ensures st.cells[r].chatId == c { RefIsFiled(st, c, r); }
  }

  lemma RefIsFiled(st: Chats, c: string, r: nat)
    requires Filing(st) && r in RefsOf(st, c)
    ensures FiledAt(st, c, r)
  {
    assert Filed(st, c);
    var k :| 0 <= k < |RefsOf(st, c)| && RefsOf(st, c)[k] == r;
  }

  // ------------------------------------------------------------- changes to one chat

  /** The step touches one chat's records: the others keep their lists, objects and keys. */
  ghost predicate OnlyIn(st: Chats, st': Chats, chat: string)
    requires Sound(st) && Sound(st')
  {
    forall c {:trigger Rows(st', c)} :: c != chat ==> Rows(st', c) == Rows(st, c) && TopKey(st', c) == TopKey(st, c)
  }

  lemma OthersStayGood(st: Chats, st': Chats, chat: string, good: Good)
    requires Sound(st) && Sound(st') && AllGood(st, good) && OnlyIn(st, st', chat)
    requires st'.chats <= st.chats + {chat}
    requires chat in st'.chats ==> good(Rows(st', chat), TopKey(st', chat))
    ensures AllGood(st', good)
  {
    forall c | c in st'.chats ensures good(Rows(st', c), TopKey(st', c)) {
      assert c != chat ==> Rows(st', c) == Rows(st, c);
    }
  }

  lemma RowsPushed(st: Chats, m: Message)
    requires Sound(st)
    ensures var st' := Pushed(st, m);
            Rows(st', m.chatId) == Rows(st, m.chatId) + [m] && TopKey(st', m.chatId) == m.orderKey && OnlyIn(st, st', m.chatId)
  {
    var st' := Pushed(st, m);
    forall c | c != m.chatId ensures Rows(st', c) == Rows(st, c) && TopKey(st', c) == TopKey(st, c) {
      SameRows(st, st', c);
    }
  }

  lemma FiledPushed(st: Chats, m: Message, c: string)
    requires Filing(st) && m.id !in st.byId
    ensures Filed(Pushed(st, m), c)
  {
    var st' := Pushed(st, m);
    assert Filed(st, c);
    forall k | 0 <= k < |RefsOf(st', c)| ensures FiledAt(st', c, RefsOf(st', c)[k]) {
      if k < |RefsOf(st, c)| {
        assert FiledAt(st, c, RefsOf(st, c)[k]);
      }
    }
  }

  lemma ListedPushed(st: Chats, m: Message, id: string)
    requires Filing(st) && m.id !in st.byId && id in Pushed(st, m).byId
    ensures Listed(Pushed(st, m), id)
  {
    var st' := Pushed(st, m);
    if id == m.id {
      assert RefsOf(st', m.chatId)[|RefsOf(st, m.chatId)|] == |st.cells|;
    } else {
      assert Listed(st, id);
      var chat := st.cells[st.byId[id]].chatId;
      assert RefsOf(st', chat) == RefsOf(st, chat) || RefsOf(st', chat) == RefsOf(st, chat) + [|st.cells|];
    }
  }

  lemma PushedIsFiled(st: Chats, m: Message)
    requires Filing(st) && m.chatId in st.chats && m.id !in st.byId
    ensures Filing(Pushed(st, m))
  {
    forall c ensures Filed(Pushed(st, m), c) { FiledPushed(st, m, c); }
    forall id | id in Pushed(st, m).byId ensures Listed(Pushed(st, m), id) { ListedPushed(st, m, id); }
  }

  predicate SameIdentity(a: Message, b: Message) {
    a.id == b.id && a.chatId == b.chatId
  }

  /** Rewriting flags leaves every record where it is filed, and only its own chat's change. */
  lemma FlagsKeepFiling(st: Chats, cells: seq<Message>, chat: string)
    requires Filing(st) && |cells| == |st.cells|
    requires forall r :: 0 <= r < |cells| ==> SameIdentity(cells[r], st.cells[r])
    requires forall r :: 0 <= r < |cells| && r !in RefsOf(st, chat) ==> cells[r] == st.cells[r]
    ensures var st' := st.(cells := cells);
            Filing(st') && OnlyIn(st, st', chat)
  {
    var st' := st.(cells := cells);
    forall c ensures Filed(st', c) {
      assert RefsOf(st', c) == RefsOf(st, c);
      forall k | 0 <= k < |RefsOf(st', c)| ensures FiledAt(st', c, RefsOf(st', c)[k]) {
        var r := RefsOf(st, c)[k];
        RefIsFiled(st, c, r);
        assert SameIdentity(cells[r], st.cells[r]);
      }
    }
    forall id | id in st.byId ensures Listed(st', id) {
      assert Listed(st, id) && SameIdentity(cells[st.byId[id]], st.cells[st.byId[id]]);
    }
    forall c | c != chat ensures Rows(st', c) == Rows(st, c) && TopKey(st', c) == TopKey(st, c) {
      ListsApart(st, chat, c);
      assert forall k :: 0 <= k < |RefsOf(st, c)| ==> RefsOf(st, c)[k] in RefsOf(st, c);
      SameRows(st, st', c);
    }
  }

  lemma SwitchedRows(st: Chats, chat: string, id: string)
    requires Sound(st)
    ensures Rows(Switched(st, chat, id), chat) == Marked(Rows(st, chat), ActivationSet(Rows(st, chat), id))
  {
    assert forall k :: 0 <= k < |RefsOf(st, chat)| ==> RefsOf(st, chat)[k] in RefsOf(st, chat);
  }

  lemma SwitchedIsFiled(st: Chats, chat: string, id: string)
    requires Filing(st)
    ensures var st' := Switched(st, chat, id);
            && Filing(st') && OnlyIn(st, st', chat)
            && Rows(st', chat) == Marked(Rows(st, chat), ActivationSet(Rows(st, chat), id))
            && TopKey(st', chat) == TopKey(st, chat)
  {
    var st' := Switched(st, chat, id);
    FlagsKeepFiling(st, st'.cells, chat);
    SwitchedRows(st, chat, id);
  }

  // -------------------------------------------------------------------- appending

  lemma {:induction false} LiveOnesAre(rs: seq<Message>)
    ensures forall m :: m in LiveOnes(rs) <==> m in rs && Live(m)
  {
    if rs != [] {
      LiveOnesAre(rs[..|rs| - 1]);
      assert rs == rs[..|rs| - 1] + [rs[|rs| - 1]];
    }
  }

  lemma ActiveLeafIsLive(rs: seq<Message>)
    ensures ActiveLeaf(rs).Some? ==> ActiveLeaf(rs).value in rs && Live(ActiveLeaf(rs).value)
  {
    LiveOnesAre(rs);
    SortKeeps(LiveOnes(rs), ByDepth);
  }

  /** The parent an append finds is a record of the chat that is not archived. */
  lemma ParentIsListed(st: Chats, input: AppendInput)
    requires Filing(st) && DistinctIds(Rows(st, input.chatId)) && ParentOf(st, input).Ok?
    ensures var rows := Rows(st, input.chatId);
            var parent := ParentOf(st, input).value;
            && (parent.Some? ==> At(rows, parent.value.id) < |rows| && rows[At(rows, parent.value.id)] == parent.value
                                 && !parent.value.archived)
            && (input.parent.Under? ==> parent.Some?)
  {
    var rows := Rows(st, input.chatId);
    match input.parent {
      case Leaf =>
        ActiveLeafIsLive(rows);
        var leaf := ActiveLeaf(rows);
        if leaf.Some? {
          var i :| 0 <= i < |rows| && rows[i] == leaf.value;
          AtIs(rows, i);
        }
      case Root =>
      case Under(id) =>
        var i := NamedIsListed(st, id);
        AtIs(rows, i);
    }
  }

  lemma UnusedInChat(st: Chats, chat: string, id: string)
    requires Filing(st) && id !in st.byId
    ensures id !in Ids(Rows(st, chat))
  {
    forall i | 0 <= i < |Rows(st, chat)| ensures Rows(st, chat)[i].id != id {
      RowAt(st, chat, i);
    }
  }

  lemma BuiltAttaches(st: Chats, input: AppendInput)
    requires Filing(st) && DistinctIds(Rows(st, input.chatId)) && ParentOf(st, input).Ok?
    requires input.id !in Ids(Rows(st, input.chatId))
    ensures Attaches(Rows(st, input.chatId), TopKey(st, input.chatId), Built(st, input, ParentOf(st, input).value))
  {
    var rows := Rows(st, input.chatId);
    ParentIsListed(st, input);
    forall i | 0 <= i < |rows| ensures rows[i].id != input.id {
      assert rows[i] in rows;
    }
  }

  predicate Disjoint(xs: seq<nat>, ys: seq<nat>) {
    forall r :: r in xs ==> r !in ys
  }

  /** No record is in the lists of two chats. */
  ghost predicate ListsDisjoint(st: Chats) {
    forall c, d :: c != d ==> Disjoint(RefsOf(st, c), RefsOf(st, d))
  }

  lemma PushedApart(st: Chats, m: Message, c: string)
    requires Sound(st) && ListsDisjoint(st) && c != m.chatId
    ensures RefsOf(Pushed(st, m), c) == RefsOf(st, c)
    ensures Disjoint(RefsOf(Pushed(st, m), c), RefsOf(Pushed(st, m), m.chatId))
  {
    assert RefsOf(Pushed(st, m), m.chatId) == RefsOf(st, m.chatId) + [|st.cells|];
    assert Disjoint(RefsOf(st, c), RefsOf(st, m.chatId));
    assert InRange(st.cells, RefsOf(st, c));
  }

  lemma SwitchedOnlyIn(st: Chats, chat: string, id: string, c: string)
    requires Sound(st) && Disjoint(RefsOf(st, c), RefsOf(st, chat))
    ensures Rows(Switched(st, chat, id), c) == Rows(st, c) && TopKey(Switched(st, chat, id), c) == TopKey(st, c)
  {
    assert forall k :: 0 <= k < |RefsOf(st, c)| ==> RefsOf(st, c)[k] in RefsOf(st, c);
    SameRows(st, Switched(st, chat, id), c);
  }

  /** The records of the chat after an append. */
  function Appended(rs: seq<Message>, m: Message, activate: bool): seq<Message> {
    if activate then Marked(rs + [m], ActivationSet(rs + [m], m.id)) else rs + [m]
  }

  /** An append touches its own chat alone, even in a store whose ids are out of step. */
  lemma AppendOnlyIn(st: Chats, input: AppendInput, fence: Option<Fence>)
    requires Sound(st) && ListsDisjoint(st) && AppendMessage(st, input, fence).Ok?
    ensures var st' := AppendMessage(st, input, fence).value;
            var m := Built(st, input, ParentOf(st, input).value);
            && Sound(st') && OnlyIn(st, st', input.chatId) && st'.chats == st.chats && input.chatId in st.chats
            && Rows(st', input.chatId) == Appended(Rows(st, input.chatId), m, input.activate)
            && TopKey(st', input.chatId) == m.orderKey
            && input.id in st'.byId && st'.byId[input.id] == |st.cells|
  {
    var m := Built(st, input, ParentOf(st, input).value);
    RowsPushed(st, m);
    if input.activate {
      SwitchedRows(Pushed(st, m), m.chatId, m.id);
      forall c | c != m.chatId
        ensures Rows(Switched(Pushed(st, m), m.chatId, m.id), c) == Rows(st, c)
                && TopKey(Switched(Pushed(st, m), m.chatId, m.id), c) == TopKey(st, c)
      {
        assert Rows(Pushed(st, m), c) == Rows(st, c);
        PushedApart(st, m, c);
        SwitchedOnlyIn(Pushed(st, m), m.chatId, m.id, c);
      }
    }
  }

  lemma AppendIsFiled(st: Chats, input: AppendInput, fence: Option<Fence>, good: Good)
    requires Filing(st) && AllGood(st, good) && AppendMessage(st, input, fence).Ok? && input.id !in st.byId
    requires var m := Built(st, input, ParentOf(st, input).value);
             good(Appended(Rows(st, input.chatId), m, input.activate), m.orderKey)
    ensures var st' := AppendMessage(st, input, fence).value;
            Filing(st') && AllGood(st', good)
  {
    var chat := input.chatId;
    var m := Built(st, input, ParentOf(st, input).value);
    var pushed := Pushed(st, m);
    PushedIsFiled(st, m);
    RowsPushed(st, m);
    if input.activate {
      SwitchedIsFiled(pushed, chat, m.id);
      var st' := Switched(pushed, chat, m.id);
      assert OnlyIn(st, st', chat) by {
        forall c | c != chat ensures Rows(st', c) == Rows(st, c) && TopKey(st', c) == TopKey(st, c) { assert Rows(pushed, c) == Rows(st, c); }
      }
      OthersStayGood(st, st', chat, good);
    } else {
      OthersStayGood(st, pushed, chat, good);
    }
  }

  /** An id in use: its first record no longer is the one the id names. */
  lemma ReusedIdMisfiles(st: Chats, m: Message) returns (ref: nat)
    requires Filing(st) && m.id in st.byId
    ensures var chat := st.cells[st.byId[m.id]].chatId;
            ref in RefsOf(Pushed(st, m), chat) && ref < |st.cells| && st.cells[ref].id == m.id
  {
    var i := NamedIsListed(st, m.id);
    var chat := st.cells[st.byId[m.id]].chatId;
    ref := RefsOf(st, chat)[i];
    assert RefsOf(Pushed(st, m), chat)[i] == ref;
  }

  lemma AppendMisfilesReused(st: Chats, input: AppendInput, fence: Option<Fence>)
    requires Filing(st) && AppendMessage(st, input, fence).Ok? && input.id in st.byId
    ensures !Filing(AppendMessage(st, input, fence).value)
  {
    var m := Built(st, input, ParentOf(st, input).value);
    var pushed := Pushed(st, m);
    var chat := st.cells[st.byId[m.id]].chatId;
    var st' := AppendMessage(st, input, fence).value;
    var ref := ReusedIdMisfiles(st, m);
    assert RefsOf(st', chat) == RefsOf(pushed, chat) && st'.cells[ref].id == m.id && st'.byId[m.id] == |st.cells|;
    var k :| 0 <= k < |RefsOf(st', chat)| && RefsOf(st', chat)[k] == ref;
    assert !FiledAt(st', chat, RefsOf(st', chat)[k]);
    assert !Filed(st', chat);
  }

  // --------------------------------------------------------------- the other calls

  lemma ActivateIsFiled(st: Chats, id: string, good: Good)
    requires Filing(st) && AllGood(st, good) && ActivatePath(st, id).Ok?
    requires var chat := st.cells[st.byId[id]].chatId;
             good(Marked(Rows(st, chat), ActivationSet(Rows(st, chat), id)), TopKey(st, chat))
    ensures Filing(ActivatePath(st, id).value) && AllGood(ActivatePath(st, id).value, good)
  {
    var i := NamedIsListed(st, id);
    var chat := st.cells[st.byId[id]].chatId;
    SwitchedIsFiled(st, chat, id);
    OthersStayGood(st, Switched(st, chat, id), chat, good);
  }

  lemma InterredIsFiled(st: Chats, chat: string, met: seq<Message>, ids: set<string>, good: Good)
    requires Filing(st) && AllGood(st, good) && chat in st.chats
    requires forall m :: m in Rows(st, chat) ==> (m in met <==> m.id in ids)
    requires good(Archived(Rows(st, chat), ids), TopKey(st, chat))
    ensures var st' := st.(cells := Interred(st.cells, RefsOf(st, chat), met));
            Filing(st') && AllGood(st', good)
  {
    var st' := st.(cells := Interred(st.cells, RefsOf(st, chat), met));
    FlagsKeepFiling(st, st'.cells, chat);
    assert forall k :: 0 <= k < |RefsOf(st, chat)| ==> RefsOf(st, chat)[k] in RefsOf(st, chat);
    assert forall k :: 0 <= k < |RefsOf(st, chat)| ==> Rows(st, chat)[k] in Rows(st, chat);
    assert Rows(st', chat) == Archived(Rows(st, chat), ids);
    OthersStayGood(st, st', chat, good);
  }

  lemma CreateIsFiled(st: Chats, id: string, good: Good)
    requires Filing(st) && AllGood(st, good) && (id !in st.chats || RefsOf(st, id) == [])
    requires good([], TopKey(st, id))
    ensures Filing(CreateChat(st, id)) && AllGood(CreateChat(st, id), good)
  {
    var st' := CreateChat(st, id);
    forall c ensures RefsOf(st', c) == RefsOf(st, c) && Filed(st', c) {
      assert Filed(st, c);
      assert forall k :: 0 <= k < |RefsOf(st, c)| ==> FiledAt(st, c, RefsOf(st, c)[k]) ==> FiledAt(st', c, RefsOf(st, c)[k]);
    }
    forall i | i in st'.byId ensures Listed(st', i) {
      assert Listed(st, i);
    }
    assert OnlyIn(st, st', id) by {
      forall c | c != id ensures Rows(st', c) == Rows(st, c) && TopKey(st', c) == TopKey(st, c) { SameRows(st, st', c); }
    }
    assert Rows(st', id) == [];
    OthersStayGood(st, st', id, good);
  }

  lemma CreateMisfilesListed(st: Chats, id: string)
    requires Filing(st) && RefsOf(st, id) != []
    ensures !Filing(CreateChat(st, id))
  {
    RowAt(st, id, 0);
    var m := Rows(st, id)[0];
    assert m.id in CreateChat(st, id).byId && !Listed(CreateChat(st, id), m.id);
  }

  lemma OfOtherChat(st: Chats, c: string, d: string, ref: nat)
    requires Filing(st) && c != d && ref in RefsOf(st, d)
    ensures st.cells[ref].id !in Ids(Rows(st, c))
  {
    assert Filed(st, d);
    var k :| 0 <= k < |RefsOf(st, d)| && RefsOf(st, d)[k] == ref;
    RowAt(st, d, k);
    ListsApart(st, c, d);
    forall j | 0 <= j < |Rows(st, c)| ensures Rows(st, c)[j].id != st.cells[ref].id {
      RowAt(st, c, j);
      assert RefsOf(st, c)[j] in RefsOf(st, c);
    }
  }

  lemma StillFiled(st: Chats, st': Chats, id: string, c: string)
    requires Filing(st) && Sound(st') && c != id && st'.cells == st.cells && RefsOf(st', c) == RefsOf(st, c)
    requires st'.byId == st.byId - Ids(Rows(st, id))
    ensures Filed(st', c)
  {
    assert Filed(st, c);
    forall k | 0 <= k < |RefsOf(st, c)| ensures FiledAt(st', c, RefsOf(st', c)[k]) {
      assert FiledAt(st, c, RefsOf(st, c)[k]);
      OfOtherChat(st, id, c, RefsOf(st, c)[k]);
    }
  }

  lemma StillListed(st: Chats, id: string, i: string)
    requires Filing(st) && i in st.byId && i !in Ids(Rows(st, id))
    ensures st.cells[st.byId[i]].chatId != id && st.cells[st.byId[i]].id == i
  {
    var k := NamedIsListed(st, i);
    var m := st.cells[st.byId[i]];
    assert m in Rows(st, m.chatId);
  }

  lemma DeleteIsFiled(st: Chats, id: string, good: Good)
    requires Filing(st) && AllGood(st, good) && DeleteChat(st, id).Ok?
    ensures Filing(DeleteChat(st, id).value) && AllGood(DeleteChat(st, id).value, good)
  {
    var st' := DeleteChat(st, id).value;
    forall c ensures Filed(st', c) {
      if c != id { StillFiled(st, st', id, c); }
    }
    forall i | i in st'.byId ensures Listed(st', i) {
      assert Listed(st, i);
      StillListed(st, id, i);
    }
    assert OnlyIn(st, st', id) by {
      forall c | c != id ensures Rows(st', c) == Rows(st, c) && TopKey(st', c) == TopKey(st, c) { SameRows(st, st', c); }
    }
    OthersStayGood(st, st', id, good);
  }
}
