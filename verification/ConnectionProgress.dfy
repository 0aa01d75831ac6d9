/**
 What calls come to when nothing fails and nothing comes in between: tool calls reach the server, and
 lifecycle calls leave the connection as they say.
 */
module ConnectionProgress {
  import opened Wrappers
  import opened ConnectionLife
  import opened ConnectionCalls
  import ToolIdentity

  // --------------------------------------------------------------------- a tool call

  /** The call goes on from await to await, and nothing else moves. */
  function Played(st: State, n: nat, os: seq<Outside>): State
    decreases os
  {
    if os == [] then st else Played(Apply(st, Go(n, os[0])), n, os[1..])
  }

  predicate AllWell(os: seq<Outside>) {
    forall k :: 0 <= k < |os| ==> os[k].ok
  }

  /** The connection is as the grant has it: its record stored with that revision, account and workspace,
      connected and enabled, and its session live, the one the run's tools were contributed with. */
  predicate AsGranted(l: Life, s: Source) {
    var id := s.grant.connectionId;
    && id in l.store && l.store[id].revision == s.grant.revision && l.store[id].accountId == s.grant.accountId
    && l.store[id].workspaceId == s.grant.workspaceId && l.store[id].status == Connected && l.store[id].config.enabled
    && id in l.managers && l.managers[id].manager == s.manager
  }

  /** The tool is listed, and tool, input, arguments and effect are within the grant. */
  predicate WithinGrant(g: Grant, args: map<string, string>, listed: Outside) {
    && listed.tool.Some? && listed.tool.value in g.tools && listed.validInput && listed.effect in g.effects
    && forall key :: key in g.args ==> key in args && args[key] == g.args[key]
  }

  lemma AsGrantedIs(l: Life, s: Source)
    requires LifeInv(l)
    ensures AsGranted(l, s) <==> StillSelected(l, s, Lookup(l.store, s.grant.connectionId))
  {
  }

  function ActionFor(l: Life, s: Source, args: map<string, string>, listed: Outside): Action
    requires s.grant.connectionId in l.store && listed.tool.Some?
  {
    Action(listed.op, l.store[s.grant.connectionId], listed.tool.value, args, listed.effect)
  }

  /** What the outside sees of it: for a write the approval, then a pending receipt, then the action itself,
      then the receipt of how it ended. */
  function Sent(s: Source, a: Action): seq<Event> {
    (if a.effect == Writes then [Approval(a)] else []) + [Pending(a), Dispatch(s, a), Closed(a)]
  }

  lemma PlayedStep(st: State, n: nat, os: seq<Outside>)
    requires os != []
    ensures Played(st, n, os) == Played(Apply(st, Go(n, os[0])), n, os[1..])
  {
  }

  lemma {:induction false} OverStays(st: State, n: nat, os: seq<Outside>)
    requires n in st.calls && st.calls[n].stage == Over
    ensures Played(st, n, os) == st
    decreases os
  {
    if os != [] {
      OverStays(st, n, os[1..]);
    }
  }

  /** The checks after the approval, and the receipt. */
  lemma StepsToRecorded(st: State, n: nat, a: Action, o1: Outside, o2: Outside, o3: Outside) returns (e: State)
    requires LifeInv(st.life) && n in st.calls && st.calls[n].stage == Approved(a) && o3.ok
    requires AsGranted(st.life, st.calls[n].source)
    ensures e == Apply(Apply(Apply(st, Go(n, o1)), Go(n, o2)), Go(n, o3))
    ensures e == At(Logged(st, Pending(a)), n, Recorded(a))
  {
    AsGrantedIs(st.life, st.calls[n].source);
    var s1 := At(st, n, Checking(a, Lookup(st.life.store, st.calls[n].source.grant.connectionId)));
    var s2 := At(s1, n, Recording(a));
    e := At(Logged(s2, Pending(a)), n, Recorded(a));
    assert Apply(st, Go(n, o1)) == s1 && Apply(s1, Go(n, o2)) == s2 && Apply(s2, Go(n, o3)) == e;
  }

  /** The last check, the action itself, and how it ended. */
  lemma StepsToOver(st: State, n: nat, a: Action, o1: Outside, o2: Outside, o3: Outside) returns (e: State)
    requires LifeInv(st.life) && n in st.calls && st.calls[n].stage == Recorded(a) && o3.ok
    requires AsGranted(st.life, st.calls[n].source)
    ensures e == Apply(Apply(Apply(st, Go(n, o1)), Go(n, o2)), Go(n, o3))
    ensures e == At(Logged(Logged(st, Dispatch(st.calls[n].source, a)), Closed(a)), n, Over)
  {
    AsGrantedIs(st.life, st.calls[n].source);
    var s1 := At(st, n, Rechecking(a, Lookup(st.life.store, st.calls[n].source.grant.connectionId)));
    var s2 := At(Logged(s1, Dispatch(st.calls[n].source, a)), n, Remote(a));
    e := At(Logged(s2, Closed(a)), n, Over);
    assert Apply(st, Go(n, o1)) == s1 && Apply(s1, Go(n, o2)) == s2 && Apply(s2, Go(n, o3)) == e;
  }

  /** From the approval on. */
  lemma PlaysFromApproved(st: State, n: nat, a: Action, os: seq<Outside>)
    requires LifeInv(st.life) && n in st.calls && st.calls[n].stage == Approved(a)
    requires AllWell(os) && |os| >= 6 && AsGranted(st.life, st.calls[n].source)
    ensures var s, e := st.calls[n].source, Played(st, n, os);
            && e.log == st.log + [Pending(a), Dispatch(s, a), Closed(a)]
            && e.life == st.life && n in e.calls && e.calls[n].stage == Over
  {
    var s3 := StepsToRecorded(st, n, a, os[0], os[1], os[2]);
    var s6 := StepsToOver(s3, n, a, os[3], os[4], os[5]);
    PlaySix(st, n, os, s6);
    OverStays(s6, n, os[6..]);
  }

  lemma PlaySix(st: State, n: nat, os: seq<Outside>, e: State)
    requires |os| >= 6
    requires e == Apply(Apply(Apply(Apply(Apply(Apply(st, Go(n, os[0])), Go(n, os[1])), Go(n, os[2])), Go(n, os[3])), Go(n, os[4])), Go(n, os[5]))
    ensures Played(st, n, os) == Played(e, n, os[6..])
  {
    var s1 := Apply(st, Go(n, os[0]));
    var s2 := Apply(s1, Go(n, os[1]));
    var s3 := Apply(s2, Go(n, os[2]));
    var s4 := Apply(s3, Go(n, os[3]));
    var s5 := Apply(s4, Go(n, os[4]));
    PlayedStep(st, n, os);
    assert os[1..][0] == os[1] && os[1..][1..] == os[2..];
    PlayedStep(s1, n, os[1..]);
    assert os[2..][0] == os[2] && os[2..][1..] == os[3..];
    PlayedStep(s2, n, os[2..]);
    assert os[3..][0] == os[3] && os[3..][1..] == os[4..];
    PlayedStep(s3, n, os[3..]);
    assert os[4..][0] == os[4] && os[4..][1..] == os[5..];
    PlayedStep(s4, n, os[4..]);
    assert os[5..][0] == os[5] && os[5..][1..] == os[6..];
    PlayedStep(s5, n, os[5..]);
  }

  /**
   A call that nothing disturbs, with every step outside succeeding: it reaches the server, recorded
   before and closed after, and approved before if it is a write, exactly if the connection is as
   granted and the call within the grant. If not, the outside sees nothing of it.
   */
  lemma UndisturbedCallIs(st: State, n: nat, s: Source, args: map<string, string>, os: seq<Outside>)
    requires LifeInv(st.life) && s in st.sources && n !in st.calls && !st.life.disposed
    requires AllWell(os) && |os| >= 9
    ensures var e := Played(Apply(st, ConnectionCalls.Begin(n, s, args)), n, os);
            && e.life == st.life && n in e.calls && e.calls[n].stage == Over
            && e.log == st.log + if AsGranted(st.life, s) && WithinGrant(s.grant, args, os[1])
                                 then Sent(s, ActionFor(st.life, s, args, os[1])) else []
  {
    var l, found := st.life, Lookup(st.life.store, s.grant.connectionId);
    var s0 := st.(calls := st.calls[n := Call(s, args, Selecting(found))]);
    AsGrantedIs(l, s);
    PlayedStep(s0, n, os);
    assert st.log + [] == st.log;
    if !AsGranted(l, s) {
      OverStays(At(s0, n, Over), n, os[1..]);
    } else {
      var s1 := At(s0, n, Listing(found.value));
      PlayedStep(s1, n, os[1..]);
      assert os[1..][0] == os[1] && os[1..][1..] == os[2..];
      if !WithinGrant(s.grant, args, os[1]) {
        OverStays(At(s1, n, Over), n, os[2..]);
      } else {
        PlaysFromListed(s1, n, os);
      }
    }
  }

  lemma PlaysFromListed(s1: State, n: nat, os: seq<Outside>)
    requires LifeInv(s1.life) && n in s1.calls && AllWell(os) && |os| >= 9
    requires var s := s1.calls[n].source;
             && AsGranted(s1.life, s) && WithinGrant(s.grant, s1.calls[n].args, os[1])
             && s1.calls[n].stage == Listing(s1.life.store[s.grant.connectionId])
    ensures var s := s1.calls[n].source;
            var e := Played(Apply(s1, Go(n, os[1])), n, os[2..]);
            && e.life == s1.life && n in e.calls && e.calls[n].stage == Over
            && e.log == s1.log + Sent(s, ActionFor(s1.life, s, s1.calls[n].args, os[1]))
  {
    var s := s1.calls[n].source;
    var a := ActionFor(s1.life, s, s1.calls[n].args, os[1]);
    var used := s1.(usedOps := s1.usedOps + {os[1].op});
    if os[1].effect == Writes {
      assert Apply(s1, Go(n, os[1])) == At(used, n, Asking(a));
      PlaysFromAsking(At(used, n, Asking(a)), n, a, os[2..]);
    } else {
      assert Apply(s1, Go(n, os[1])) == At(used, n, Approved(a));
      PlaysFromApproved(At(used, n, Approved(a)), n, a, os[2..]);
      assert [] + [Pending(a), Dispatch(s, a), Closed(a)] == [Pending(a), Dispatch(s, a), Closed(a)];
    }
  }

  lemma PlaysFromAsking(st: State, n: nat, a: Action, os: seq<Outside>)
    requires LifeInv(st.life) && n in st.calls && st.calls[n].stage == Asking(a) && a.effect == Writes
    requires AllWell(os) && |os| >= 7 && AsGranted(st.life, st.calls[n].source)
    ensures var s, e := st.calls[n].source, Played(st, n, os);
            && e.log == st.log + Sent(s, a) && e.life == st.life && n in e.calls && e.calls[n].stage == Over
  {
    var s := st.calls[n].source;
    var s1 := At(Logged(st, Approval(a)), n, Approved(a));
    PlayedStep(st, n, os);
    assert Apply(st, Go(n, os[0])) == s1;
    PlaysFromApproved(s1, n, a, os[1..]);
    assert (st.log + [Approval(a)]) + [Pending(a), Dispatch(s, a), Closed(a)] == st.log + Sent(s, a);
  }

  /** A run gets the tools of a connection exactly if it is as granted at both looks, with the session that
      is live then. */
  lemma ContributedIff(st: State, n: nat, g: Grant, manager: nat)
    requires LifeInv(st.life) && Source(g, manager) !in st.sources
    ensures Source(g, manager) in Apply(Apply(st, Look(n, g)), Capture(n)).sources <==> AsGranted(st.life, Source(g, manager))
    ensures n !in Apply(Apply(st, Look(n, g)), Capture(n)).looks
  {
    AsGrantedIs(st.life, Source(g, manager));
  }
}
