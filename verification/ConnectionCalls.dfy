/**
 Tool calls through connections, interleaved at every await with each other and with the calls
 that save, reconnect or remove those connections.

 `log` is what the outside has seen so far: approvals given, receipts stored, calls dispatched.
 */
module ConnectionCalls {
  import opened Wrappers
  import opened ConnectionLife

  datatype Effect = Reads | Writes

  datatype Grant = Grant(connectionId: string, revision: int, accountId: string, workspaceId: Option<string>,
                         tools: set<string>, effects: set<Effect>, args: map<string, string>)

  /** A run's tools of one connection: the grant, and the session live when they were contributed. */
  datatype Source = Source(grant: Grant, manager: nat)

  /** One action, exactly as it is approved, recorded and sent. */
  datatype Action = Action(op: string, record: Rec, toolName: string, args: map<string, string>, effect: Effect)

  /** Where a call stands: what it is waiting for, and what it has in hand. */
  datatype Stage =
    | Selecting(found: Option<Rec>)
    | Listing(record: Rec)
    | Asking(action: Action)
    | Approved(action: Action)
    | Checking(action: Action, found: Option<Rec>)
    | Recording(action: Action)
    | Recorded(action: Action)
    | Rechecking(action: Action, found: Option<Rec>)
    | Remote(action: Action)
    | Over

  datatype Call = Call(source: Source, args: map<string, string>, stage: Stage)

  datatype Event = Approval(action: Action) | Pending(action: Action) | Dispatch(source: Source, action: Action)
                 | Closed(action: Action)

  datatype State = State(life: Life, looks: map<nat, (Grant, Option<Rec>)>, sources: set<Source>, calls: map<nat, Call>,
                         usedOps: set<string>, log: seq<Event>)

  /** A service just started over a store that may hold records already. */
  predicate Starts(st: State) {
    && Keyed(st.life.store) && st.life.managers == map[] && st.life.todo == []
    && st.looks == map[] && st.sources == {} && st.calls == map[] && st.log == []
  }

  // -------------------------------------------------------------------- selection

  /** The record carries what the grant was given for. */
  predicate Pinned(rec: Rec, g: Grant) {
    rec.id == g.connectionId && rec.revision == g.revision && rec.accountId == g.accountId && rec.workspaceId == g.workspaceId
  }

  predicate Selected(found: Option<Rec>, g: Grant) {
    found.Some? && Pinned(found.value, g) && found.value.status == Connected && found.value.config.enabled
  }

  /** The live session of the record, if it is tied to the record as given. */
  function ManagerOf(l: Life, rec: Rec): Option<nat> {
    if rec.id in l.managers && l.managers[rec.id].mark == MarkOf(rec) then Some(l.managers[rec.id].manager) else None
  }

  /** The check made before anything is sent: the grant's record, and the run's own session. */
  predicate StillSelected(l: Life, s: Source, found: Option<Rec>) {
    Selected(found, s.grant) && ManagerOf(l, found.value) == Some(s.manager)
  }

  // ------------------------------------------------------------------------ steps

  /**
   What happens outside: whether it succeeds, the tool the listing has under the id called, how
   host code classifies it, and the identifier made up for the operation.
   */
  datatype Outside = Outside(ok: bool, tool: Option<string>, validInput: bool, effect: Effect, op: string)

  datatype Step = LifeStep(m: Move) | Look(n: nat, g: Grant) | Capture(n: nat)
                | Begin(n: nat, s: Source, args: map<string, string>) | Go(n: nat, o: Outside) | Abort(n: nat)

  predicate Fits(args: map<string, string>, g: Grant) {
    forall key :: key in g.args ==> key in args && args[key] == g.args[key]
  }

  predicate MayCall(c: Call, o: Outside) {
    && o.tool.Some? && o.tool.value in c.source.grant.tools && o.validInput
    && Fits(c.args, c.source.grant) && o.effect in c.source.grant.effects
  }

  function At(st: State, n: nat, stage: Stage): State
    requires n in st.calls
  {
    st.(calls := st.calls[n := st.calls[n].(stage := stage)])
  }

  function Logged(st: State, e: Event): State {
    st.(log := st.log + [e])
  }

  function Advanced(st: State, n: nat, o: Outside): State
    requires n in st.calls
  {
    var c, l := st.calls[n], st.life;
    match c.stage
    case Selecting(found) =>
      if StillSelected(l, c.source, found) then At(st, n, Listing(found.value)) else At(st, n, Over)
    case Listing(record) =>
      if !o.ok || !MayCall(c, o) then At(st, n, Over)
      else
        var action := Action(o.op, record, o.tool.value, c.args, o.effect);
        At(st.(usedOps := st.usedOps + {o.op}), n, if o.effect == Writes then Asking(action) else Approved(action))
    case Asking(action) =>
      if o.ok then At(Logged(st, Approval(action)), n, Approved(action)) else At(st, n, Over)
    case Approved(action) => At(st, n, Checking(action, Lookup(l.store, c.source.grant.connectionId)))
    case Checking(action, found) =>
      if StillSelected(l, c.source, found) then At(st, n, Recording(action)) else At(st, n, Over)
    case Recording(action) =>
      if o.ok then At(Logged(st, Pending(action)), n, Recorded(action)) else At(st, n, Over)
    case Recorded(action) => At(st, n, Rechecking(action, Lookup(l.store, c.source.grant.connectionId)))
    case Rechecking(action, found) =>
      if StillSelected(l, c.source, found) then At(Logged(st, Dispatch(c.source, action)), n, Remote(action))
      else At(if o.ok then Logged(st, Closed(action)) else st, n, Over)
    case Remote(action) => At(if o.ok then Logged(st, Closed(action)) else st, n, Over)
    case Over => st
  }

  /** The identifier is one nobody has used. */
  predicate FreshOp(st: State, step: Step) {
    step.Go? ==> step.o.op !in st.usedOps
  }

  function Apply(st: State, step: Step): State {
    match step
    case LifeStep(m) => st.(life := Moved(st.life, m))
    case Look(n, g) => st.(looks := st.looks[n := (g, Lookup(st.life.store, g.connectionId))])
    case Capture(n) =>
      if n !in st.looks then st
      else
        var (g, found) := st.looks[n];
        if !Selected(found, g) || ManagerOf(st.life, found.value).None? then st.(looks := st.looks - {n})
        else st.(looks := st.looks - {n}, sources := st.sources + {Source(g, ManagerOf(st.life, found.value).value)})
    case Begin(n, s, args) =>
      if s !in st.sources || n in st.calls || st.life.disposed then st
      else st.(calls := st.calls[n := Call(s, args, Selecting(Lookup(st.life.store, s.grant.connectionId)))])
    case Go(n, o) => if n in st.calls then Advanced(st, n, o) else st
    case Abort(n) => if n in st.calls then At(st, n, Over) else st
  }

  ghost predicate Run(states: seq<State>, steps: seq<Step>) {
    && |states| == |steps| + 1 && Starts(states[0])
    && forall i :: 0 <= i < |steps| ==> FreshOp(states[i], steps[i]) && states[i + 1] == Apply(states[i], steps[i])
  }

  // -------------------------------------------------------------------- invariants

  predicate ActionOf(st: State, c: Call, a: Action) {
    && Pinned(a.record, c.source.grant) && a.args == c.args && a.op in st.usedOps
    && a.toolName in c.source.grant.tools && a.effect in c.source.grant.effects && Fits(a.args, c.source.grant)
  }

  predicate ApprovedIfWrite(log: seq<Event>, a: Action) {
    a.effect == Writes ==> Approval(a) in log
  }

  predicate NotDispatched(log: seq<Event>, op: string) {
    forall e :: e in log && e.Dispatch? ==> e.action.op != op
  }

  /** The action a call has in hand, once it has one. */
  function InHand(stage: Stage): Option<Action> {
    match stage
    case Selecting(_) => None
    case Listing(_) => None
    case Asking(a) => Some(a)
    case Approved(a) => Some(a)
    case Checking(a, _) => Some(a)
    case Recording(a) => Some(a)
    case Recorded(a) => Some(a)
    case Rechecking(a, _) => Some(a)
    case Remote(a) => Some(a)
    case Over => None
  }

  predicate StageOk(st: State, c: Call) {
    var a := InHand(c.stage);
    && (a.Some? ==> ActionOf(st, c, a.value))
    && (c.stage.Listing? ==> Pinned(c.stage.record, c.source.grant))
    && (a.Some? && !c.stage.Asking? ==> ApprovedIfWrite(st.log, a.value))
    && (c.stage.Recorded? || c.stage.Rechecking? || c.stage.Remote? ==> Pending(a.value) in st.log)
    && (a.Some? && !c.stage.Remote? ==> NotDispatched(st.log, a.value.op))
  }

  predicate CallsOk(st: State) {
    forall n :: n in st.calls ==> StageOk(st, st.calls[n])
  }

  predicate Apart(a: Option<Action>, b: Option<Action>) {
    a.Some? && b.Some? ==> a.value.op != b.value.op
  }

  /** No two calls have the same operation in hand. */
  predicate OpsApart(st: State) {
    forall m, n :: m in st.calls && n in st.calls && m != n ==> Apart(InHand(st.calls[m].stage), InHand(st.calls[n].stage))
  }

  /** What was dispatched was recorded before, and approved before if it is a write; once only. */
  predicate LogOk(log: seq<Event>) {
    forall i :: 0 <= i < |log| && log[i].Dispatch? ==>
      && Pending(log[i].action) in log[..i]
      && ApprovedIfWrite(log[..i], log[i].action)
      && NotDispatched(log[..i], log[i].action.op)
  }

  predicate OpsUsed(st: State) {
    forall e :: e in st.log && e.Dispatch? ==> e.action.op in st.usedOps
  }

  predicate CallsInv(st: State) {
    CallsOk(st) && OpsApart(st) && LogOk(st.log) && OpsUsed(st)
  }

  lemma LogGrows(log: seq<Event>, e: Event)
    requires LogOk(log)
    requires e.Dispatch? ==> Pending(e.action) in log && ApprovedIfWrite(log, e.action) && NotDispatched(log, e.action.op)
    ensures LogOk(log + [e])
  {
    var longer := log + [e];
    forall i | 0 <= i < |longer| && longer[i].Dispatch?
      ensures Pending(longer[i].action) in longer[..i] && ApprovedIfWrite(longer[..i], longer[i].action)
              && NotDispatched(longer[..i], longer[i].action.op)
    {
      assert longer[..i] == log[..i];
      assert i == |log| ==> log[..i] == log;
    }
  }

  /** One call moves on; the log grows by what it does. */
  lemma OneMoves(st: State, n: nat, stage: Stage, usedOps: set<string>, added: seq<Event>)
    requires CallsInv(st) && n in st.calls && st.usedOps <= usedOps && |added| <= 1
    requires added != [] && added[0].Dispatch? ==>
               && Pending(added[0].action) in st.log && ApprovedIfWrite(st.log, added[0].action)
               && NotDispatched(st.log, added[0].action.op) && InHand(stage) == Some(added[0].action)
    requires InHand(stage).Some? ==>
               InHand(stage) == InHand(st.calls[n].stage) || InHand(stage).value.op !in st.usedOps
    requires var st' := st.(usedOps := usedOps, log := st.log + added, calls := st.calls[n := st.calls[n].(stage := stage)]);
             StageOk(st', st'.calls[n])
    ensures CallsInv(st.(usedOps := usedOps, log := st.log + added, calls := st.calls[n := st.calls[n].(stage := stage)]))
  {
    var st' := st.(usedOps := usedOps, log := st.log + added, calls := st.calls[n := st.calls[n].(stage := stage)]);
    if added != [] {
      LogGrows(st.log, added[0]);
      assert added == [added[0]];
    } else {
      assert st'.log == st.log;
    }
    forall m | m in st'.calls && m != n ensures StageOk(st', st'.calls[m]) {
      assert StageOk(st, st.calls[m]);
      assert StageOk(st, st.calls[n]);
    }
    forall m | m in st.calls && m != n && InHand(st.calls[m].stage).Some?
      ensures InHand(st.calls[m].stage).value.op in st.usedOps
    {
      assert StageOk(st, st.calls[m]);
    }
  }

  predicate Unsent(stage: Stage) {
    stage.Selecting? || stage.Listing? || stage.Asking? || stage.Approved?
  }

  lemma EarlyGoKeeps(st: State, n: nat, o: Outside)
    requires CallsInv(st) && n in st.calls && o.op !in st.usedOps && Unsent(st.calls[n].stage)
    ensures CallsInv(Advanced(st, n, o))
  {
    var c, l := st.calls[n], st.life;
    assert StageOk(st, c);
    assert st.log + [] == st.log;
    match c.stage {
      case Selecting(found) =>
        OneMoves(st, n, if StillSelected(l, c.source, found) then Listing(found.value) else Over, st.usedOps, []);
      case Listing(record) =>
        if !o.ok || !MayCall(c, o) {
          OneMoves(st, n, Over, st.usedOps, []);
        } else {
          var action := Action(o.op, record, o.tool.value, c.args, o.effect);
          OneMoves(st, n, if o.effect == Writes then Asking(action) else Approved(action), st.usedOps + {o.op}, []);
        }
      case Asking(action) =>
        if o.ok { OneMoves(st, n, Approved(action), st.usedOps, [Approval(action)]); } else { OneMoves(st, n, Over, st.usedOps, []); }
      case Approved(action) =>
        OneMoves(st, n, Checking(action, Lookup(l.store, c.source.grant.connectionId)), st.usedOps, []);
      case _ =>
    }
  }

  lemma LateGoKeeps(st: State, n: nat, o: Outside)
    requires CallsInv(st) && n in st.calls && !Unsent(st.calls[n].stage)
    ensures CallsInv(Advanced(st, n, o))
  {
    var c, l := st.calls[n], st.life;
    assert StageOk(st, c);
    assert st.log + [] == st.log;
    match c.stage {
      case Checking(action, found) =>
        OneMoves(st, n, if StillSelected(l, c.source, found) then Recording(action) else Over, st.usedOps, []);
      case Recording(action) =>
        if o.ok { OneMoves(st, n, Recorded(action), st.usedOps, [Pending(action)]); } else { OneMoves(st, n, Over, st.usedOps, []); }
      case Recorded(action) =>
        OneMoves(st, n, Rechecking(action, Lookup(l.store, c.source.grant.connectionId)), st.usedOps, []);
      case Rechecking(action, found) =>
        if StillSelected(l, c.source, found) {
          OneMoves(st, n, Remote(action), st.usedOps, [Dispatch(c.source, action)]);
        } else {
          OneMoves(st, n, Over, st.usedOps, if o.ok then [Closed(action)] else []);
        }
      case Remote(action) => OneMoves(st, n, Over, st.usedOps, if o.ok then [Closed(action)] else []);
      case _ =>
    }
  }

  lemma GoKeeps(st: State, n: nat, o: Outside)
    requires CallsInv(st) && n in st.calls && o.op !in st.usedOps
    ensures CallsInv(Advanced(st, n, o))
  {
    if Unsent(st.calls[n].stage) { EarlyGoKeeps(st, n, o); } else { LateGoKeeps(st, n, o); }
  }

  lemma StepKeepsCalls(st: State, step: Step)
    requires CallsInv(st) && FreshOp(st, step)
    ensures CallsInv(Apply(st, step))
  {
    match step {
      case LifeStep(m) => SameCalls(st, Apply(st, step));
      case Look(n, g) => SameCalls(st, Apply(st, step));
      case Capture(n) => SameCalls(st, Apply(st, step));
      case Begin(n, s, args) =>
        if Apply(st, step) != st { BeginKeeps(st, n, Call(s, args, Selecting(Lookup(st.life.store, s.grant.connectionId)))); }
      case Go(n, o) => if n in st.calls { GoKeeps(st, n, o); }
      case Abort(n) =>
        if n in st.calls {
          assert st.log + [] == st.log;
          OneMoves(st, n, Over, st.usedOps, []);
        }
    }
  }

  lemma SameCalls(st: State, st': State)
    requires CallsInv(st) && st'.calls == st.calls && st'.usedOps == st.usedOps && st'.log == st.log
    ensures CallsInv(st')
  {
    forall n | n in st'.calls ensures StageOk(st', st'.calls[n]) { assert StageOk(st, st.calls[n]); }
  }

  lemma BeginKeeps(st: State, n: nat, c: Call)
    requires CallsInv(st) && n !in st.calls && c.stage.Selecting?
    ensures CallsInv(st.(calls := st.calls[n := c]))
  {
    var st' := st.(calls := st.calls[n := c]);
    forall m | m in st'.calls ensures StageOk(st', st'.calls[m]) {
      if m != n { assert StageOk(st, st.calls[m]); }
    }
  }

  lemma StepKeepsLife(st: State, step: Step)
    requires LifeInv(st.life)
    ensures LifeInv(Apply(st, step).life)
  {
    match step {
      case LifeStep(m) => MoveKeeps(st.life, m);
      case _ =>
    }
  }

  lemma {:induction false} RunKeeps(states: seq<State>, steps: seq<Step>, i: nat)
    requires Run(states, steps) && i < |states|
    ensures LifeInv(states[i].life) && CallsInv(states[i])
  {
    if i > 0 {
      var j := i - 1;
      RunKeeps(states, steps, j);
      assert states[j + 1] == Apply(states[j], steps[j]);
      StepKeepsLife(states[j], steps[j]);
      StepKeepsCalls(states[j], steps[j]);
    }
  }

  // ------------------------------------------------------------------- main results

  /** This step sends the action of a call to the tool server. */
  predicate Dispatches(st: State, step: Step, s: Source, a: Action) {
    && step.Go? && step.n in st.calls
    && Apply(st, step).log == st.log + [Dispatch(s, a)]
  }

  /**
   At the instant a call is sent, under any interleaving with the calls that save, reconnect,
   disconnect, remove and create connections: the session live is the one the run's tools were
   contributed with, and the record stored now has the revision, account and workspace granted.
   */
  lemma DispatchIsPinned(states: seq<State>, steps: seq<Step>, i: nat, s: Source, a: Action)
    requires Run(states, steps) && i < |steps| && Dispatches(states[i], steps[i], s, a)
    ensures var l := states[i].life;
            var id := s.grant.connectionId;
            && id in l.managers && l.managers[id].manager == s.manager
            && id in l.store && Pinned(l.store[id], s.grant) && l.store[id].config.enabled
  {
    RunKeeps(states, steps, i);
    LastOf(states[i].log, Dispatch(s, a));
    OnlyRecheckingSends(states[i], steps[i].n, steps[i].o);
    var c := states[i].calls[steps[i].n];
    if c.stage.Rechecking? {
      LastOf(states[i].log, Dispatch(c.source, c.stage.action));
    }
  }

  lemma LastOf(log: seq<Event>, e: Event)
    ensures (log + [e])[|log|] == e && |log + [e]| == |log| + 1
  {
  }

  /** Only the last check leads to sending. */
  lemma OnlyRecheckingSends(st: State, n: nat, o: Outside)
    requires n in st.calls
    ensures var c, st' := st.calls[n], Advanced(st, n, o);
            if c.stage.Rechecking? && StillSelected(st.life, c.source, c.stage.found)
            then st'.log == st.log + [Dispatch(c.source, c.stage.action)]
            else st'.log == st.log || (|st'.log| == |st.log| + 1 && !st'.log[|st.log|].Dispatch?)
  {
  }

  /**
   Whatever is sent was recorded as pending before; a write was approved before, on exactly these
   arguments; and no operation is sent twice.
   */
  lemma DispatchIsRecordedOnce(states: seq<State>, steps: seq<Step>, i: nat, k: nat)
    requires Run(states, steps) && i < |states| && k < |states[i].log| && states[i].log[k].Dispatch?
    ensures var log, a := states[i].log, states[i].log[k].action;
            && Pending(a) in log[..k]
            && (a.effect == Writes ==> Approval(a) in log[..k])
            && forall j :: 0 <= j < |log| && j != k && log[j].Dispatch? ==> log[j].action.op != a.op
  {
    RunKeeps(states, steps, i);
    var log := states[i].log;
    forall j | 0 <= j < |log| && j != k && log[j].Dispatch? ensures log[j].action.op != log[k].action.op {
      if j < k {
        assert log[..k][j] == log[j] && log[j] in log[..k];
      } else {
        assert log[..j][k] == log[k] && log[k] in log[..j];
      }
    }
  }

  /** A run's tools were contributed with a session that is live, or that is gone for good. */
  ghost predicate SourcesInv(st: State) {
    SessionsApart(st.life) && forall s :: s in st.sources ==> IsLive(st.life, s.manager) || Gone(st.life, s.manager)
  }

  lemma StepKeepsSources(st: State, step: Step)
    requires LifeInv(st.life) && SourcesInv(st)
    ensures SourcesInv(Apply(st, step))
  {
    match step {
      case LifeStep(m) =>
        MoveKeepsApart(st.life, m);
        forall s | s in st.sources ensures IsLive(Moved(st.life, m), s.manager) || Gone(Moved(st.life, m), s.manager) {
          if Gone(st.life, s.manager) {
            GoneForever(st.life, m, s.manager);
          } else if !IsLive(Moved(st.life, m), s.manager) {
            DroppedIsGone(st.life, m, s.manager);
          }
        }
      case _ =>
    }
  }

  lemma {:induction false} RunKeepsSources(states: seq<State>, steps: seq<Step>, i: nat)
    requires Run(states, steps) && i < |states|
    ensures SourcesInv(states[i])
  {
    if i > 0 {
      var j := i - 1;
      RunKeeps(states, steps, j);
      RunKeepsSources(states, steps, j);
      assert states[j + 1] == Apply(states[j], steps[j]);
      StepKeepsSources(states[j], steps[j]);
    }
  }

  lemma {:induction false} GoneStaysGone(states: seq<State>, steps: seq<Step>, i: nat, j: nat, manager: nat)
    requires Run(states, steps) && i <= j < |states| && Gone(states[i].life, manager)
    ensures Gone(states[j].life, manager)
    decreases j
  {
    if i < j {
      var k := j - 1;
      GoneStaysGone(states, steps, i, k, manager);
      assert states[k + 1] == Apply(states[k], steps[k]);
      match steps[k] {
        case LifeStep(m) => GoneForever(states[k].life, m, manager);
        case _ =>
      }
    }
  }

  /**
   Once the session a run's tools were contributed with is not live, whatever dropped it, they never
   reach the server again, even if a connection is created anew with the same id, revision, account
   and workspace.
   */
  lemma DroppedRunIsCutOff(states: seq<State>, steps: seq<Step>, i: nat, j: nat, s: Source, a: Action)
    requires Run(states, steps) && i <= j < |steps|
    requires s in states[i].sources && !IsLive(states[i].life, s.manager)
    ensures !Dispatches(states[j], steps[j], s, a)
  {
    RunKeepsSources(states, steps, i);
    GoneStaysGone(states, steps, i, j, s.manager);
    if Dispatches(states[j], steps[j], s, a) {
      DispatchIsPinned(states, steps, j, s, a);
    }
  }

  /** And so it is from the very step that drops the session. */
  lemma CutOffFromTheDrop(states: seq<State>, steps: seq<Step>, i: nat, j: nat, s: Source, a: Action)
    requires Run(states, steps) && i < j < |steps|
    requires IsLive(states[i].life, s.manager) && !IsLive(states[i + 1].life, s.manager)
    ensures !Dispatches(states[j], steps[j], s, a)
  {
    RunKeeps(states, steps, i);
    RunKeepsSources(states, steps, i);
    assert states[i + 1] == Apply(states[i], steps[i]);
    assert steps[i].LifeStep?;
    DroppedIsGone(states[i].life, steps[i].m, s.manager);
    GoneStaysGone(states, steps, i + 1, j, s.manager);
    if Dispatches(states[j], steps[j], s, a) {
      DispatchIsPinned(states, steps, j, s, a);
    }
  }

  /** The stored record of a connection is exchanged or removed only after its session was dropped. */
  lemma NeverChangedBehindASession(states: seq<State>, steps: seq<Step>, i: nat, id: string)
    requires Run(states, steps) && i < |steps| && Changed(states[i].life, states[i + 1].life, id)
    ensures id !in states[i].life.managers && id !in states[i + 1].life.managers
  {
    RunKeeps(states, steps, i);
    assert states[i + 1] == Apply(states[i], steps[i]);
    match steps[i] {
      case LifeStep(m) => DroppedBeforeChanged(states[i].life, m, id);
      case _ =>
    }
  }
}
