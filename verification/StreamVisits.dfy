/**
 What an iteration yields, asks for and waits, told from the frames it has heard on all of its connections
 so far: every event that is news, the cursor of the last of them, and the last hint.
 */
module StreamVisits {
  import opened Wrappers
  import opened SseParser
  import opened RunStream
  import opened StreamDelivery
  import opened StreamResume

  // ------------------------------------------------------------------- the frames heard

  predicate Reaches(frames: seq<Frame>, k: nat)
    requires k < |frames|
  {
    frames[k].event != Some(SETTLED) && frames[k].event != Some(RESYNC)
    && forall j :: 0 <= j < k ==> !BadResync(frames[j])
  }

  /** Of the first `n` frames, those that are not for the stream itself, up to a resync that is not the marker. */
  function Passed(frames: seq<Frame>, n: nat): seq<Frame>
    requires n <= |frames|
  {
    if n == 0 then [] else Passed(frames, n - 1) + if Reaches(frames, n - 1) then [frames[n - 1]] else []
  }

  lemma ReachesRest(frames: seq<Frame>, k: nat)
    requires 0 < k < |frames|
    ensures Reaches(frames, k) <==> !BadResync(frames[0]) && Reaches(frames[1..], k - 1)
  {
    assert forall j :: 0 < j <= k ==> frames[1..][j - 1] == frames[j];
  }

  /** What the first frame adds to all that come after it. */
  function Opening(f: Frame): seq<Frame> {
    if Control(f) then [] else [f]
  }

  lemma {:induction false} PassedRest(frames: seq<Frame>, n: nat)
    requires 0 < n <= |frames|
    ensures Passed(frames, n) == if BadResync(frames[0]) then [] else Opening(frames[0]) + Passed(frames[1..], n - 1)
  {
    if n == 1 {
      assert Passed(frames, 0) == [] && Passed(frames[1..], 0) == [];
    } else {
      PassedRest(frames, n - 1);
      ReachesRest(frames, n - 1);
      var more := if Reaches(frames, n - 1) then [frames[n - 1]] else [];
      assert Passed(frames, n) == Passed(frames, n - 1) + more;
      if !BadResync(frames[0]) {
        assert frames[1..][n - 2] == frames[n - 1];
        assert Passed(frames[1..], n - 1) == Passed(frames[1..], n - 2) + more;
        Regrouping(Opening(frames[0]), Passed(frames[1..], n - 2), more);
      }
    }
  }

  lemma Regrouping<T>(xs: seq<T>, ys: seq<T>, zs: seq<T>)
    ensures (xs + ys) + zs == xs + (ys + zs)
  {
  }

  lemma {:induction false} PipePasses(frames: seq<Frame>, fate: Fate, settled: bool)
    ensures Pipe(frames, fate, settled).frames == Passed(frames, |frames|)
    decreases frames
  {
    if frames != [] {
      PipePasses(frames[1..], fate, settled || frames[0].event == Some(SETTLED));
      PassedRest(frames, |frames|);
    }
  }

  /** What the first `k` connections brought. */
  function Heard(c: Client, serve: Server, decode: Decoder, k: nat): seq<Frame> {
    if k == 0 then []
    else
      var frames := ConnectionAt(c, serve, decode, k - 1).frames;
      Heard(c, serve, decode, k - 1) + Passed(frames, |frames|)
  }

  // ------------------------------------------------------------------------------- news

  /** An event that is numbered above all before it, or not usably numbered. */
  predicate News(heard: seq<Frame>, decode: Decoder, k: nat)
    requires k < |heard|
  {
    match EventIn(heard[k], decode)
    case None => false
    case Some(event) => event.number == None || forall j :: 0 <= j < k ==> Below(heard[j], decode, event.number.value)
  }

  predicate Below(f: Frame, decode: Decoder, number: int) {
    match EventIn(f, decode)
    case Some(event) => event.number == None || event.number.value < number
    case None => true
  }

  /** The events among the first `n` frames that are news. */
  function Reported(heard: seq<Frame>, decode: Decoder, n: nat): seq<RunEvent>
    requires n <= |heard|
  {
    if n == 0 then []
    else Reported(heard, decode, n - 1) + if News(heard, decode, n - 1) then [EventIn(heard[n - 1], decode).value] else []
  }

  predicate NoNews(heard: seq<Frame>, decode: Decoder, from: nat, to: nat)
    requires to <= |heard|
  {
    forall k: nat :: from <= k < to ==> !News(heard, decode, k)
  }

  /** The id of the frame with the last news, or of the event in it; the given cursor while there was none. */
  ghost predicate ResumesFrom(heard: seq<Frame>, decode: Decoder, n: nat, given: Option<string>, cursor: Option<string>)
    requires n <= |heard|
  {
    || (NoNews(heard, decode, 0, n) && cursor == given)
    || exists k: nat :: k < n && LastNews(heard, decode, k, n)
                        && cursor == if heard[k].id != None then heard[k].id else EventIn(heard[k], decode).value.eventId
  }

  predicate LastNews(heard: seq<Frame>, decode: Decoder, k: nat, n: nat)
    requires k < n <= |heard|
  {
    News(heard, decode, k) && NoNews(heard, decode, k + 1, n)
  }

  /** The last hint, held between a quarter of a second and half a minute; the given delay while there was none. */
  ghost predicate Waits(heard: seq<Frame>, n: nat, given: int, delay: int)
    requires n <= |heard|
  {
    || (NoHint(heard, 0, n) && delay == given)
    || exists k: nat :: k < n && LastHint(heard, k, n) && Held(heard[k].retry.value, delay)
  }

  predicate NoHint(heard: seq<Frame>, from: nat, to: nat)
    requires to <= |heard|
  {
    forall k :: from <= k < to ==> heard[k].retry == None
  }

  predicate LastHint(heard: seq<Frame>, k: nat, n: nat)
    requires k < n <= |heard|
  {
    heard[k].retry != None && NoHint(heard, k + 1, n)
  }

  predicate Held(hint: int, delay: int) {
    250 <= delay <= 30_000 && (hint < delay ==> delay == 250) && (hint > delay ==> delay == 30_000)
  }

  // ---------------------------------------------------------------- one frame after the other

  function Then(t: Taken, u: Taken): Taken {
    Taken(u.client, t.events + u.events)
  }

  lemma ThenTwice(a: Taken, b: Taken, c: Taken)
    ensures Then(a, Then(b, c)) == Then(Then(a, b), c)
  {
  }

  lemma TakeFirstOf(c: Client, frames: seq<Frame>, rest: seq<Frame>, f: Frame, decode: Decoder)
    requires frames == [f] + rest
    ensures var first := TakeFrame(c, f, decode);
            TakeAll(c, frames, decode) == Then(first, TakeAll(first.client, rest, decode))
  {
    assert frames[1..] == rest;
  }

  lemma {:induction false} TakeConcat(c: Client, xs: seq<Frame>, ys: seq<Frame>, decode: Decoder)
    ensures var t := TakeAll(c, xs, decode);
            TakeAll(c, xs + ys, decode) == Then(t, TakeAll(t.client, ys, decode))
    decreases xs
  {
    if xs == [] {
      assert xs + ys == ys;
    } else {
      var f, rest := xs[0], xs[1..];
      var first := TakeFrame(c, f, decode);
      TakeConcat(first.client, rest, ys, decode);
      TakeFirstOf(c, xs, rest, f, decode);
      TakeFirstOf(c, xs + ys, rest + ys, f, decode);
      var t := TakeAll(first.client, rest, decode);
      ThenTwice(first, t, TakeAll(t.client, ys, decode));
    }
  }

  /** After `n` frames. */
  function TakenUpTo(c: Client, heard: seq<Frame>, decode: Decoder, n: nat): Taken
    requires n <= |heard|
  {
    TakeAll(c, heard[..n], decode)
  }

  lemma OneMoreTaken(c: Client, heard: seq<Frame>, decode: Decoder, n: nat)
    requires n < |heard|
    ensures var t := TakenUpTo(c, heard, decode, n);
            var u := TakeFrame(t.client, heard[n], decode);
            TakenUpTo(c, heard, decode, n + 1) == Taken(u.client, t.events + u.events)
  {
    var t := TakenUpTo(c, heard, decode, n);
    var u := TakeFrame(t.client, heard[n], decode);
    assert heard[..n + 1] == heard[..n] + [heard[n]];
    TakeConcat(c, heard[..n], [heard[n]], decode);
    assert TakeAll(t.client, [heard[n]], decode) == u by {
      assert TakeAll(u.client, [heard[n]][1..], decode) == Taken(u.client, []);
      assert u.events + [] == u.events;
    }
  }

  /** `high` is the highest number among the first `n` frames. */
  ghost predicate Tops(heard: seq<Frame>, decode: Decoder, n: nat, high: Option<int>)
    requires n <= |heard|
  {
    && (high != None ==> exists k :: 0 <= k < n && !Below(heard[k], decode, high.value))
    && forall k :: 0 <= k < n ==> (high == None ==> Below(heard[k], decode, 0) && Unnumbered(heard[k], decode))
                                  && (high != None ==> Below(heard[k], decode, high.value + 1))
  }

  predicate Unnumbered(f: Frame, decode: Decoder) {
    EventIn(f, decode) == None || EventIn(f, decode).value.number == None
  }

  lemma NewsIff(heard: seq<Frame>, decode: Decoder, n: nat, c: Client)
    requires n < |heard| && Tops(heard, decode, n, c.highest)
    ensures News(heard, decode, n) <==> EventIn(heard[n], decode) != None && !Replayed(c, EventIn(heard[n], decode).value)
  {
  }

  lemma TopsNext(heard: seq<Frame>, decode: Decoder, n: nat, c: Client)
    requires n < |heard| && Tops(heard, decode, n, c.highest)
    ensures Tops(heard, decode, n + 1, TakeFrame(c, heard[n], decode).client.highest)
  {
    var high := TakeFrame(c, heard[n], decode).client.highest;
    if high != None && high == c.highest {
      var k :| 0 <= k < n && !Below(heard[k], decode, high.value);
    } else if high != None {
      assert !Below(heard[n], decode, high.value);
    }
  }

  /** The client and what it has yielded, after `n` frames. */
  ghost predicate Follows(c: Client, heard: seq<Frame>, decode: Decoder, n: nat, t: Taken)
    requires n <= |heard|
  {
    && Tops(heard, decode, n, t.client.highest)
    && t.events == Reported(heard, decode, n)
    && ResumesFrom(heard, decode, n, c.lastEventId, t.client.lastEventId)
    && Waits(heard, n, c.retryDelay, t.client.retryDelay)
  }

  lemma CursorNext(heard: seq<Frame>, decode: Decoder, n: nat, given: Option<string>, c: Client)
    requires n < |heard| && Tops(heard, decode, n, c.highest) && ResumesFrom(heard, decode, n, given, c.lastEventId)
    ensures ResumesFrom(heard, decode, n + 1, given, TakeFrame(c, heard[n], decode).client.lastEventId)
  {
    NewsIff(heard, decode, n, c);
    if News(heard, decode, n) {
      assert LastNews(heard, decode, n, n + 1);
    } else if !NoNews(heard, decode, 0, n) {
      var k: nat :| k < n && LastNews(heard, decode, k, n)
                    && c.lastEventId == if heard[k].id != None then heard[k].id else EventIn(heard[k], decode).value.eventId;
      assert LastNews(heard, decode, k, n + 1);
    }
  }

  lemma WaitNext(heard: seq<Frame>, decode: Decoder, n: nat, given: int, c: Client)
    requires n < |heard| && Waits(heard, n, given, c.retryDelay)
    ensures Waits(heard, n + 1, given, TakeFrame(c, heard[n], decode).client.retryDelay)
  {
    if heard[n].retry != None {
      assert LastHint(heard, n, n + 1);
    } else if !NoHint(heard, 0, n) {
      var k: nat :| k < n && LastHint(heard, k, n) && Held(heard[k].retry.value, c.retryDelay);
      assert LastHint(heard, k, n + 1);
    }
  }

  lemma {:induction false} TakenIs(c: Client, heard: seq<Frame>, decode: Decoder, n: nat)
    requires n <= |heard| && c.highest == None
    ensures Follows(c, heard, decode, n, TakenUpTo(c, heard, decode, n))
  {
    if n == 0 {
      assert heard[..0] == [];
    } else {
      var m := n - 1;
      var t := TakenUpTo(c, heard, decode, m);
      TakenIs(c, heard, decode, m);
      OneMoreTaken(c, heard, decode, m);
      NewsIff(heard, decode, m, t.client);
      TopsNext(heard, decode, m, t.client);
      CursorNext(heard, decode, m, c.lastEventId, t.client);
      WaitNext(heard, decode, m, c.retryDelay, t.client);
    }
  }

  // ------------------------------------------------------- one connection after the other

  /** The client apart from its counters. */
  function Bare(c: Client): Client {
    c.(attempts := 0, reconnects := 0)
  }

  lemma {:induction false} TakeBare(c: Client, frames: seq<Frame>, decode: Decoder)
    ensures TakeAll(Bare(c), frames, decode).events == TakeAll(c, frames, decode).events
    ensures Bare(TakeAll(Bare(c), frames, decode).client) == Bare(TakeAll(c, frames, decode).client)
    decreases frames
  {
    if frames != [] {
      var first, bare := TakeFrame(c, frames[0], decode), TakeFrame(Bare(c), frames[0], decode);
      TakeBare(first.client, frames[1..], decode);
      TakeBare(bare.client, frames[1..], decode);
      assert Bare(first.client) == Bare(bare.client) && first.events == bare.events;
    }
  }

  lemma {:induction false} FlatMore<T>(shares: seq<seq<T>>, share: seq<T>)
    ensures Flat(shares + [share]) == Flat(shares) + share
  {
    if shares == [] {
      assert shares + [share] == [share] && [share][1..] == [];
    } else {
      FlatMore(shares[1..], share);
      assert (shares + [share])[1..] == shares[1..] + [share];
      assert shares[0] + (Flat(shares[1..]) + share) == (shares[0] + Flat(shares[1..])) + share;
    }
  }

  /** All connections so far are as one that brought all of their frames. */
  lemma {:induction false} AsOne(c: Client, serve: Server, decode: Decoder, k: nat)
    ensures var t := TakeAll(Bare(c), Heard(c, serve, decode, k), decode);
            && Bare(ClientAt(c, serve, decode, k)) == Bare(t.client)
            && Flat(SharesUpTo(c, serve, decode, k)) == t.events
  {
    if k > 0 {
      var was, conn := ClientAt(c, serve, decode, k - 1), ConnectionAt(c, serve, decode, k - 1);
      var before, frames := Heard(c, serve, decode, k - 1), Passed(conn.frames, |conn.frames|);
      AsOne(c, serve, decode, k - 1);
      PipePasses(conn.frames, conn.fate, false);
      var t := TakeAll(Bare(c), before, decode);
      TakeConcat(Bare(c), before, frames, decode);
      TakeBare(was, frames, decode);
      TakeBare(t.client, frames, decode);
      FlatMore(SharesUpTo(c, serve, decode, k - 1), ShareAt(c, serve, decode, k - 1));
    }
  }

  ghost predicate DelaysFrom(c: Client, serve: Server, decode: Decoder, n: nat, delays: seq<int>) {
    forall k :: 0 <= k < |delays| ==> delays[k] == ClientAt(c, serve, decode, n + k + 1).retryDelay
  }

  lemma DelaysMore(c: Client, serve: Server, decode: Decoder, n: nat, delay: int, later: seq<int>)
    requires delay == ClientAt(c, serve, decode, n + 1).retryDelay && DelaysFrom(c, serve, decode, n + 1, later)
    ensures DelaysFrom(c, serve, decode, n, [delay] + later)
  {
    var all := [delay] + later;
    forall k | 0 <= k < |all| ensures all[k] == ClientAt(c, serve, decode, n + k + 1).retryDelay {
      if k > 0 {
        assert all[k] == later[k - 1] && (n + 1) + (k - 1) + 1 == n + k + 1;
      }
    }
  }

  lemma {:induction false} DelaysAre(c: Client, serve: Server, decode: Decoder, limits: Limits, n: nat)
    ensures var t := Follow(ClientAt(c, serve, decode, n), n, serve, decode, limits);
            |t.delays| + 1 == |t.shares| && DelaysFrom(c, serve, decode, n, t.delays)
    decreases limits.maxTotalReconnects - ClientAt(c, serve, decode, n).reconnects
  {
    var now := ClientAt(c, serve, decode, n);
    var v := Visit(now, n, serve, decode);
    if Reconnects(v, limits) {
      var next := ClientAt(c, serve, decode, n + 1);
      assert next == Retrying(v.taken.client);
      DelaysAre(c, serve, decode, limits, n + 1);
      DelaysMore(c, serve, decode, n, v.taken.client.retryDelay, Follow(next, n + 1, serve, decode, limits).delays);
    }
  }

  /** The cursor and the delay the k-th connection is asked for with. */
  ghost predicate Asked(options: StreamOptions, serve: Server, decode: Decoder, k: nat, cursor: Option<string>, delay: int) {
    var heard := Heard(Fresh(options), serve, decode, k);
    && ResumesFrom(heard, decode, |heard|, options.lastEventId, cursor)
    && Waits(heard, |heard|, options.retryDelayMs.GetOr(500), delay)
    && ConnectionAt(Fresh(options), serve, decode, k) == serve(k, cursor)
  }

  /** All there is to report, once. */
  ghost predicate ReportsAll(options: StreamOptions, serve: Server, decode: Decoder, shares: seq<seq<RunEvent>>) {
    var heard := Heard(Fresh(options), serve, decode, |shares|);
    Flat(shares) == Reported(heard, decode, |heard|)
  }

  lemma StateIs(options: StreamOptions, serve: Server, decode: Decoder, k: nat)
    ensures ReportsAll(options, serve, decode, SharesUpTo(Fresh(options), serve, decode, k))
    ensures var now := ClientAt(Fresh(options), serve, decode, k);
            Asked(options, serve, decode, k, now.lastEventId, now.retryDelay)
  {
    var c := Fresh(options);
    var heard := Heard(c, serve, decode, k);
    AsOne(c, serve, decode, k);
    TakenIs(Bare(c), heard, decode, |heard|);
    assert heard[..|heard|] == heard;
  }

  ghost predicate AskedAfter(options: StreamOptions, serve: Server, decode: Decoder, k: nat, delay: int) {
    exists cursor :: Asked(options, serve, decode, k, cursor, delay)
  }

  ghost predicate AllAsked(options: StreamOptions, serve: Server, decode: Decoder, delays: seq<int>) {
    forall k :: 0 <= k < |delays| ==> AskedAfter(options, serve, decode, k + 1, delays[k])
  }

  lemma AllAreAsked(options: StreamOptions, serve: Server, decode: Decoder, delays: seq<int>)
    requires DelaysFrom(Fresh(options), serve, decode, 0, delays)
    ensures AllAsked(options, serve, decode, delays)
  {
    forall k | 0 <= k < |delays| ensures AskedAfter(options, serve, decode, k + 1, delays[k]) {
      StateIs(options, serve, decode, k + 1);
      assert delays[k] == ClientAt(Fresh(options), serve, decode, 0 + k + 1).retryDelay;
    }
  }

  /**
   An iteration yields exactly the news of all it hears. Each connection after the first is waited for by
   the last hint, and every one is asked for from the last of the news, that came before it.
   */
  lemma IterationFollows(options: StreamOptions, serve: Server, decode: Decoder)
    ensures var t := Follow(Fresh(options), 0, serve, decode, LimitsOf(options));
            && ReportsAll(options, serve, decode, t.shares) && |t.delays| + 1 == |t.shares|
            && AskedAfter(options, serve, decode, 0, options.retryDelayMs.GetOr(500))
            && AllAsked(options, serve, decode, t.delays)
  {
    var last := IterationIs(options, serve, decode);
    var t := Follow(Fresh(options), 0, serve, decode, LimitsOf(options));
    assert t == Follow(ClientAt(Fresh(options), serve, decode, 0), 0, serve, decode, LimitsOf(options));
    DelaysAre(Fresh(options), serve, decode, LimitsOf(options), 0);
    StateIs(options, serve, decode, last + 1);
    FirstAsked(options, serve, decode);
    AllAreAsked(options, serve, decode, t.delays);
  }

  lemma FirstAsked(options: StreamOptions, serve: Server, decode: Decoder)
    ensures AskedAfter(options, serve, decode, 0, options.retryDelayMs.GetOr(500))
  {
    StateIs(options, serve, decode, 0);
  }
}
