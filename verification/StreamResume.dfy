/**
 How long an iteration goes on: exactly when it gives up, and that it resumes until the log is served
 to its end.
 */
module StreamResume {
  import opened Wrappers
  import opened SseParser
  import opened RunStream
  import opened StreamDelivery

  // -------------------------------------------------------------- how a connection ends

  /** A resync frame that is not the marker breaks the connection where it stands. */
  predicate BadResync(f: Frame) {
    f.event == Some(RESYNC) && f.data != Some(RESYNC_MARKER)
  }

  predicate NoBadResync(frames: seq<Frame>) {
    forall i :: 0 <= i < |frames| ==> !BadResync(frames[i])
  }

  /** The server says that all is written, and then the body ends cleanly. */
  predicate SettlesCleanly(conn: Connection) {
    NoBadResync(conn.frames) && conn.fate == Eof && SaysSettled(conn.frames)
  }

  /** An answer that no retry changes. */
  predicate Answers(conn: Connection) {
    NoBadResync(conn.frames) && conn.fate == Refused
  }

  /** Any other end is a break. */
  predicate Breaks(conn: Connection) {
    !SettlesCleanly(conn) && !Answers(conn)
  }

  lemma {:induction false} PipeEnds(frames: seq<Frame>, fate: Fate, settled: bool)
    ensures var end := Pipe(frames, fate, settled).end;
            && (end == Settled <==> NoBadResync(frames) && fate == Eof && (settled || SaysSettled(frames)))
            && (end == Answered <==> NoBadResync(frames) && fate == Refused)
    decreases frames
  {
    if frames != [] {
      PipeEnds(frames[1..], fate, settled || frames[0].event == Some(SETTLED));
      assert NoBadResync(frames) <==> !BadResync(frames[0]) && NoBadResync(frames[1..]) by {
        assert forall i :: 0 < i < |frames| ==> frames[i] == frames[1..][i - 1];
      }
      assert SaysSettled(frames) <==> frames[0].event == Some(SETTLED) || SaysSettled(frames[1..]) by {
        if i :| 0 < i < |frames| && frames[i].event == Some(SETTLED) {
          assert frames[1..][i - 1].event == Some(SETTLED);
        }
        if i :| 0 <= i < |frames[1..]| && frames[1..][i].event == Some(SETTLED) {
          assert frames[i + 1].event == Some(SETTLED);
        }
      }
    }
  }

  // ---------------------------------------------------- the connections one after the other

  /** The client once it has visited and left `k` connections. */
  function ClientAt(c: Client, serve: Server, decode: Decoder, k: nat): Client {
    if k == 0 then c
    else Retrying(Visit(ClientAt(c, serve, decode, k - 1), k - 1, serve, decode).taken.client)
  }

  /** The k-th connection, asked for with the cursor of the last event yielded. */
  function ConnectionAt(c: Client, serve: Server, decode: Decoder, k: nat): Connection {
    serve(k, ClientAt(c, serve, decode, k).lastEventId)
  }

  function ShareAt(c: Client, serve: Server, decode: Decoder, k: nat): seq<RunEvent> {
    Visit(ClientAt(c, serve, decode, k), k, serve, decode).taken.events
  }

  function SharesUpTo(c: Client, serve: Server, decode: Decoder, n: nat): (shares: seq<seq<RunEvent>>)
    ensures |shares| == n && forall k :: 0 <= k < n ==> shares[k] == ShareAt(c, serve, decode, k)
  {
    if n == 0 then [] else SharesUpTo(c, serve, decode, n - 1) + [ShareAt(c, serve, decode, n - 1)]
  }

  /** After these connections the budget is used up: as many reconnects as may be made in all, or as many
      in a row without a single event as may be made in a row. */
  predicate UsedUp(shares: seq<seq<RunEvent>>, limits: Limits) {
    || |shares| - 1 >= limits.maxTotalReconnects
    || (|shares| - 1 >= limits.maxRetries
        && forall k :: |shares| - limits.maxRetries <= k < |shares| ==> shares[k] == [])
  }

  /** The reconnects in a row, up to the last one, that yielded nothing. */
  function BarrenEnd(shares: seq<seq<RunEvent>>): nat {
    if |shares| <= 1 || shares[|shares| - 1] != [] then 0 else 1 + BarrenEnd(shares[..|shares| - 1])
  }

  lemma {:induction false} BarrenEndIs(shares: seq<seq<RunEvent>>, n: int)
    requires shares != []
    ensures BarrenEnd(shares) >= n <==>
            |shares| - 1 >= n && forall k :: |shares| - n <= k < |shares| ==> shares[k] == []
    decreases |shares|
  {
    var last := |shares| - 1;
    if n > 0 && last > 0 && shares[last] == [] {
      var front := shares[..last];
      BarrenEndIs(front, n - 1);
      assert forall k :: 0 <= k < last ==> front[k] == shares[k];
    }
  }

  /** What a fresh client has counted after its n-th connection. */
  lemma {:induction false} Counted(c: Client, serve: Server, decode: Decoder, n: nat)
    requires c.attempts == 0 && c.reconnects == 0
    ensures var d := Visit(ClientAt(c, serve, decode, n), n, serve, decode).taken.client;
            d.reconnects == n && d.attempts == BarrenEnd(SharesUpTo(c, serve, decode, n + 1))
  {
    var now := ClientAt(c, serve, decode, n);
    var conn := serve(n, now.lastEventId);
    TakeAllAttempts(now, Pipe(conn.frames, conn.fate, false).frames, decode);
    var shares := SharesUpTo(c, serve, decode, n + 1);
    assert shares[..n] == SharesUpTo(c, serve, decode, n);
    if n > 0 {
      Counted(c, serve, decode, n - 1);
    }
  }

  lemma SpentIs(c: Client, serve: Server, decode: Decoder, limits: Limits, n: nat)
    requires c.attempts == 0 && c.reconnects == 0
    ensures Spent(Visit(ClientAt(c, serve, decode, n), n, serve, decode).taken.client, limits)
            <==> UsedUp(SharesUpTo(c, serve, decode, n + 1), limits)
  {
    Counted(c, serve, decode, n);
    BarrenEndIs(SharesUpTo(c, serve, decode, n + 1), limits.maxRetries);
  }

  // --------------------------------------------------------------- where the iteration ends

  /** The iteration goes on past its n-th connection. */
  predicate GoesOn(c: Client, serve: Server, decode: Decoder, limits: Limits, n: nat) {
    Breaks(ConnectionAt(c, serve, decode, n)) && !UsedUp(SharesUpTo(c, serve, decode, n + 1), limits)
  }

  lemma GoesOnIs(c: Client, serve: Server, decode: Decoder, limits: Limits, n: nat)
    requires c.attempts == 0 && c.reconnects == 0
    ensures GoesOn(c, serve, decode, limits, n)
            <==> Reconnects(Visit(ClientAt(c, serve, decode, n), n, serve, decode), limits)
  {
    var conn := ConnectionAt(c, serve, decode, n);
    PipeEnds(conn.frames, conn.fate, false);
    SpentIs(c, serve, decode, limits, n);
  }

  function Tail(c: Client, serve: Server, decode: Decoder, limits: Limits, n: nat): Trace {
    Follow(ClientAt(c, serve, decode, n), n, serve, decode, limits)
  }

  function OutcomeOf(conn: Connection): RunStream.Outcome {
    if SettlesCleanly(conn) then Finished else if Answers(conn) then Threw else GaveUp
  }

  lemma TailIs(c: Client, serve: Server, decode: Decoder, limits: Limits, n: nat)
    requires c.attempts == 0 && c.reconnects == 0
    ensures ClientAt(c, serve, decode, n).reconnects == n
    ensures GoesOn(c, serve, decode, limits, n) ==>
              && n < limits.maxTotalReconnects
              && Tail(c, serve, decode, limits, n).shares
                 == [ShareAt(c, serve, decode, n)] + Tail(c, serve, decode, limits, n + 1).shares
              && Tail(c, serve, decode, limits, n).outcome == Tail(c, serve, decode, limits, n + 1).outcome
    ensures !GoesOn(c, serve, decode, limits, n) ==>
              && Tail(c, serve, decode, limits, n).shares == [ShareAt(c, serve, decode, n)]
              && Tail(c, serve, decode, limits, n).outcome == OutcomeOf(ConnectionAt(c, serve, decode, n))
  {
    var conn := ConnectionAt(c, serve, decode, n);
    PipeEnds(conn.frames, conn.fate, false);
    GoesOnIs(c, serve, decode, limits, n);
    Counted(c, serve, decode, n);
  }

  /** Links of a chain: what each of them adds, and what the chain comes to from each of them on. */
  datatype Links = Links(goesOn: nat -> bool, share: nat -> seq<RunEvent>, end: nat -> RunStream.Outcome, from: nat -> Trace)

  ghost predicate LinkOk(l: Links, bound: int, k: nat) {
    if l.goesOn(k) then
      k < bound && l.from(k).shares == [l.share(k)] + l.from(k + 1).shares && l.from(k).outcome == l.from(k + 1).outcome
    else l.from(k).shares == [l.share(k)] && l.from(k).outcome == l.end(k)
  }

  /** The chain goes on at each of its links but the last. */
  ghost predicate ComesTo(l: Links, n: nat, last: nat) {
    && last >= n && !l.goesOn(last) && (forall k: nat :: n <= k < last ==> l.goesOn(k))
    && |l.from(n).shares| == last - n + 1 && (forall k: nat :: k <= last - n ==> l.from(n).shares[k] == l.share(n + k))
    && l.from(n).outcome == l.end(last)
  }

  lemma {:induction false} Chain(l: Links, bound: int, n: nat) returns (last: nat)
    requires forall k: nat :: LinkOk(l, bound, k)
    ensures ComesTo(l, n, last)
    decreases bound - n
  {
    assert LinkOk(l, bound, n);
    last := n;
    if l.goesOn(n) {
      last := Chain(l, bound, n + 1);
      forall k: nat | k <= last - n ensures l.from(n).shares[k] == l.share(n + k) {
        if k > 0 {
          assert l.from(n).shares[k] == l.from(n + 1).shares[k - 1] == l.share((n + 1) + (k - 1));
        }
      }
    }
  }

  function LinksOf(c: Client, serve: Server, decode: Decoder, limits: Limits): Links {
    Links((k: nat) => GoesOn(c, serve, decode, limits, k), (k: nat) => ShareAt(c, serve, decode, k),
          (k: nat) => OutcomeOf(ConnectionAt(c, serve, decode, k)), (k: nat) => Tail(c, serve, decode, limits, k))
  }

  lemma LinksAreOk(c: Client, serve: Server, decode: Decoder, limits: Limits, k: nat)
    requires c.attempts == 0 && c.reconnects == 0
    ensures LinkOk(LinksOf(c, serve, decode, limits), limits.maxTotalReconnects, k)
  {
    TailIs(c, serve, decode, limits, k);
  }

  /** It makes connection after connection for as long as it goes on, and no further. */
  lemma EndsWhereItStops(c: Client, serve: Server, decode: Decoder, limits: Limits) returns (last: nat)
    requires c.attempts == 0 && c.reconnects == 0
    ensures ComesTo(LinksOf(c, serve, decode, limits), 0, last)
  {
    var l := LinksOf(c, serve, decode, limits);
    forall k: nat ensures LinkOk(l, limits.maxTotalReconnects, k) {
      LinksAreOk(c, serve, decode, limits, k);
    }
    last := Chain(l, limits.maxTotalReconnects, 0);
  }

  lemma ReadOff(c: Client, serve: Server, decode: Decoder, limits: Limits, last: nat)
    requires ComesTo(LinksOf(c, serve, decode, limits), 0, last)
    ensures !GoesOn(c, serve, decode, limits, last) && forall k: nat :: k < last ==> GoesOn(c, serve, decode, limits, k)
    ensures var t := Follow(c, 0, serve, decode, limits);
            t.shares == SharesUpTo(c, serve, decode, last + 1) && t.outcome == OutcomeOf(ConnectionAt(c, serve, decode, last))
  {
    var l := LinksOf(c, serve, decode, limits);
    forall k: nat | k < last ensures GoesOn(c, serve, decode, limits, k) {
      assert l.goesOn(k);
    }
    assert l.from(0) == Follow(c, 0, serve, decode, limits);
    forall k: nat | k <= last ensures l.from(0).shares[k] == ShareAt(c, serve, decode, k) {
      assert l.from(0).shares[k] == l.share(0 + k);
    }
  }

  /** The whole of an iteration, from its connections alone: the number of its last one is the first at
      which it does not go on; all of them give their share; and it returns, throws or gives up by how
      that one ends. */
  lemma IterationIs(options: StreamOptions, serve: Server, decode: Decoder) returns (last: nat)
    ensures var c, limits := Fresh(options), LimitsOf(options);
            var t := Follow(c, 0, serve, decode, limits);
            && !GoesOn(c, serve, decode, limits, last)
            && (forall k: nat :: k < last ==> GoesOn(c, serve, decode, limits, k))
            && t.shares == SharesUpTo(c, serve, decode, last + 1)
            && t.outcome == OutcomeOf(ConnectionAt(c, serve, decode, last))
  {
    var c, limits := Fresh(options), LimitsOf(options);
    last := EndsWhereItStops(c, serve, decode, limits);
    ReadOff(c, serve, decode, limits, last);
  }

  lemma SharesPrefix(c: Client, serve: Server, decode: Decoder, k: nat, n: nat)
    requires k <= n
    ensures SharesUpTo(c, serve, decode, n)[..k] == SharesUpTo(c, serve, decode, k)
  {
  }

  /** Each connection but the last one broke, and left some of the budget. */
  ghost predicate KeptOn(options: StreamOptions, serve: Server, decode: Decoder, shares: seq<seq<RunEvent>>) {
    forall k :: 0 <= k < |shares| - 1 ==>
      Breaks(ConnectionAt(Fresh(options), serve, decode, k)) && !UsedUp(shares[..k + 1], LimitsOf(options))
  }

  lemma OneKept(c: Client, serve: Server, decode: Decoder, limits: Limits, k: nat, shares: seq<seq<RunEvent>>)
    requires GoesOn(c, serve, decode, limits, k) && shares == SharesUpTo(c, serve, decode, k + 1)
    ensures Breaks(ConnectionAt(c, serve, decode, k)) && !UsedUp(shares, limits)
  {
  }

  lemma KeptOnIs(options: StreamOptions, serve: Server, decode: Decoder, last: nat, shares: seq<seq<RunEvent>>)
    requires forall k: nat :: k < last ==> GoesOn(Fresh(options), serve, decode, LimitsOf(options), k)
    requires shares == SharesUpTo(Fresh(options), serve, decode, last + 1)
    ensures KeptOn(options, serve, decode, shares)
  {
    var c, limits := Fresh(options), LimitsOf(options);
    forall k | 0 <= k < |shares| - 1
      ensures Breaks(ConnectionAt(c, serve, decode, k)) && !UsedUp(shares[..k + 1], limits)
    {
      SharesPrefix(c, serve, decode, k + 1, last + 1);
      OneKept(c, serve, decode, limits, k, shares[..k + 1]);
    }
  }

  /** Where it does not go on, it gives up exactly after a break that uses the budget up. */
  lemma StopsAs(c: Client, serve: Server, decode: Decoder, limits: Limits, n: nat)
    requires !GoesOn(c, serve, decode, limits, n)
    ensures OutcomeOf(ConnectionAt(c, serve, decode, n)) == GaveUp <==>
            Breaks(ConnectionAt(c, serve, decode, n)) && UsedUp(SharesUpTo(c, serve, decode, n + 1), limits)
  {
  }

  /**
   It gives up exactly if its last connection broke and the budget was used up: `maxTotalReconnects`
   reconnects made in all, or the last `maxRetries` of them in a row without an event. With a limit of
   zero or below that is at the first break.
   */
  lemma GivesUpIff(options: StreamOptions, serve: Server, decode: Decoder)
    ensures var t := Follow(Fresh(options), 0, serve, decode, LimitsOf(options));
            && t.shares != [] && KeptOn(options, serve, decode, t.shares)
            && (t.outcome == GaveUp <==>
                  Breaks(ConnectionAt(Fresh(options), serve, decode, |t.shares| - 1)) && UsedUp(t.shares, LimitsOf(options)))
  {
    var last := IterationIs(options, serve, decode);
    KeptOnIs(options, serve, decode, last, SharesUpTo(Fresh(options), serve, decode, last + 1));
    StopsAs(Fresh(options), serve, decode, LimitsOf(options), last);
  }

  lemma SameLast(c: Client, serve: Server, decode: Decoder, limits: Limits, m: nat, n: nat)
    requires !GoesOn(c, serve, decode, limits, m) && forall k: nat :: k < m ==> GoesOn(c, serve, decode, limits, k)
    requires !GoesOn(c, serve, decode, limits, n) && forall k: nat :: k < n ==> GoesOn(c, serve, decode, limits, k)
    ensures m == n
  {
  }

  /**
   A server that breaks, in whatever way, before its n-th answer, but not so often that the budget is
   used up, and settles cleanly then: the iteration returns. If it serves the log, all of it past the
   starting cursor has been delivered.
   */
  lemma DeliveredToTheEnd(options: StreamOptions, serve: Server, decode: Decoder, log: seq<RunEvent>, exact: bool, n: nat)
    requires IsLog(log) && Honest(serve, decode, log, exact)
    requires var c, limits := Fresh(options), LimitsOf(options);
             && SettlesCleanly(ConnectionAt(c, serve, decode, n))
             && forall k :: 0 <= k < n ==> GoesOn(c, serve, decode, limits, k)
    ensures var t := Follow(Fresh(options), 0, serve, decode, LimitsOf(options));
            && t.outcome == Finished && |t.shares| == n + 1
            && Stretch(Flat(t.shares), log, NextAfter(log, options.lastEventId), exact, true)
  {
    var c, limits := Fresh(options), LimitsOf(options);
    var last := IterationIs(options, serve, decode);
    SameLast(c, serve, decode, limits, n, last);
    DeliversTheLog(c, 0, serve, decode, limits, log, exact);
  }

  /** In particular, with fewer breaks than either limit allows, whatever arrived before each. */
  lemma FewBreaksAreResumed(options: StreamOptions, serve: Server, decode: Decoder, log: seq<RunEvent>, exact: bool, n: nat)
    requires IsLog(log) && Honest(serve, decode, log, exact)
    requires n <= LimitsOf(options).maxRetries && n <= LimitsOf(options).maxTotalReconnects
    requires forall k: nat, cursor :: k < n ==> Breaks(serve(k, cursor))
    requires forall cursor :: SettlesCleanly(serve(n, cursor))
    ensures var t := Follow(Fresh(options), 0, serve, decode, LimitsOf(options));
            && t.outcome == Finished
            && Stretch(Flat(t.shares), log, NextAfter(log, options.lastEventId), exact, true)
  {
    var c, limits := Fresh(options), LimitsOf(options);
    forall k | 0 <= k < n ensures GoesOn(c, serve, decode, limits, k) {
      assert |SharesUpTo(c, serve, decode, k + 1)| == k + 1;
    }
    DeliveredToTheEnd(options, serve, decode, log, exact, n);
  }
}
