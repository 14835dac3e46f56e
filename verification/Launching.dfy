// What one poll does to every burst, in terms of how things stood before it:
// which queued burst is sent, and which burst in flight is sent again.
module Launching {
  import opened Prelude
  import opened Carriage
  import opened Burst
  import opened BurstProofs
  import opened BurstRuns
  import opened BurstOutcomes
  import opened BurstProgress

  // ----------------------------------------------------------- bursts in flight

  // The burst is asked for again, or nothing has been heard of it in time.
  predicate Due(b: Burst, now: nat) {
    b.requested.Some? || now >= b.deadline
  }

  // What is sent of it then.
  function Wants(b: Burst): set<nat> {
    if b.requested.Some? then b.requested.value
    else if b.repairIndices.Some? then b.repairIndices.value
    else All(b)
  }

  lemma JudgedIs(b: Burst, p: Policy, now: nat)
    requires Flying(b, p)
    ensures Judge(b, now) == if Due(b, now) then Try(Wants(b)) else Rest
  {
    hide All;
  }

  // The journal's new entries include `e`.
  ghost predicate Newly(s: Sender, t: Sender, e: Entry) {
    exists i :: |s.journal| <= i < |t.journal| && t.journal[i] == e
  }

  ghost predicate SentOnceMore(s: Sender, t: Sender, order: nat) {
    Sends(t.journal, order) == Sends(s.journal, order) + 1
  }

  ghost predicate NotSent(s: Sender, t: Sender, order: nat) {
    Sends(t.journal, order) == Sends(s.journal, order)
  }

  function Repeated(b: Burst, p: Policy, now: nat): Burst {
    b.(requested := None, attempts := b.attempts + 1, deadline := now + p.ackTimeout)
  }

  // Nothing went to the peer for the least interval.
  predicate RateAllows(s: Sender, peer: string, p: Policy, now: nat) {
    peer in s.lastSend ==> s.lastSend[peer] + p.minInterval <= now
  }

  lemma RateIs(s: Sender, peer: string, p: Policy, now: nat)
    ensures MaySend(s, peer, p, now) <==> RateAllows(s, peer, p, now)
  {
  }

  // What a poll makes of a burst in flight.
  ghost predicate Handled(s: Sender, p: Policy, b: Burst, now: nat, t: Sender) {
    if !Due(b, now) then b in t.active && NotSent(s, t, b.order)
    else if b.attempts >= p.maxAttempts then !LiveOrder(t, b.order) && Newly(s, t, Left(b, Exhausted)) && NotSent(s, t, b.order)
    else if !RateAllows(s, b.peer, p, now) then b.(requested := Some(Wants(b))) in t.active && NotSent(s, t, b.order)
    else
      && Repeated(b, p, now) in t.active && SentOnceMore(s, t, b.order)
      && Newly(s, t, Transmitted(Repeated(b, p, now), Wants(b), now))
  }

  // Every burst in flight is left alone until it is due; then it is given up
  // after its last attempt, put off by the rate limit, or sent once more, and
  // what is sent is what was asked for last, or else all of it.
  lemma InFlightIsHandled(s: Sender, p: Policy, b: Burst, now: nat)
    requires Inv(s, p) && p.Valid() && b in s.active && Accounted(s, p, b.order)
    ensures Handled(s, p, b, now, PollSender(s, p, now))
  {
    hide Inv, PollSender, MaySend, RateAllows, Sends, Exits, Wants, Judge, Newly, PollEntry;
    RateIs(s, b.peer, p, now);
    FlyingActive(s, p, b);
    JudgedIs(b, p, now);
    PollOutcome(s, p, b, now);
    PollAccounts(s, p, now, b.order);
    PollKeepsInv(s, p, now);
    NextOrderGrows(s, p, now);
    var t := PollSender(s, p, now);
    LiveBound(s, p);
    assert Live(s, b);
    if Due(b, now) {
      if b.attempts >= p.maxAttempts {
        GivenUp(s, p, b, now);
        PollWrites(s, p, now);
        CountPrefix(s.journal, t.journal, b.order);
      } else if MaySend(s, b.peer, p, now) {
        Resent(s, p, b, now);
        assert Live(t, Repeated(b, p, now));
      } else {
        assert Live(t, b.(requested := Some(Wants(b))));
      }
    } else {
      assert Live(t, b);
    }
  }

  // The entry a burst's own turn writes is in the journal when the poll is over.
  lemma TurnIsWritten(s: Sender, p: Policy, now: nat, k: nat, e: Entry)
    requires Inv(s, p) && p.Valid() && k < |s.active|
    requires var t := PollActive(s, p, s.active, now, k);
             Newly(t, PollBurst(t, p, s.active[k], now), e)
    ensures Newly(s, PollSender(s, p, now), e)
  {
    hide Inv, PollActive, LaunchAll, Candidates, PollBurst, PollEntry;
    PollActiveKeepsInv(s, p, now, k);
    PollActiveKeepsInv(s, p, now, |s.active|);
    PollActiveWrites(s, p, now, k);
    var t := PollActive(s, p, s.active, now, k);
    var swept := PollActive(s, p, s.active, now, |s.active|);
    PollActiveStep(s, p, s.active, now, k + 1);
    var u := PollBurst(t, p, s.active[k], now);
    JournalGrows(s, p, now, k + 1, |s.active|);
    LaunchAllWrites(swept, p, now, |Candidates(swept.queue)|);
    var i :| |t.journal| <= i < |u.journal| && u.journal[i] == e;
    assert PollSender(s, p, now).journal[i] == e;
  }

  lemma GivenUp(s: Sender, p: Policy, b: Burst, now: nat)
    requires Inv(s, p) && p.Valid() && b in s.active && Judge(b, now).Try? && b.attempts >= p.maxAttempts
    ensures Newly(s, PollSender(s, p, now), Left(b, Exhausted))
  {
    hide Inv, PollActive, Judge, PollSender, MaySend, Kept, Replaced;
    var k :| 0 <= k < |s.active| && s.active[k] == b;
    PollActiveKeepsInv(s, p, now, k);
    var t := PollActive(s, p, s.active, now, k);
    assert PollBurst(t, p, b, now).journal[|t.journal|] == Left(b, Exhausted);
    TurnIsWritten(s, p, now, k, Left(b, Exhausted));
  }

  lemma Resent(s: Sender, p: Policy, b: Burst, now: nat)
    requires Inv(s, p) && p.Valid() && b in s.active && Judge(b, now) == Try(Wants(b))
    requires b.attempts < p.maxAttempts && MaySend(s, b.peer, p, now)
    ensures Newly(s, PollSender(s, p, now), Transmitted(Repeated(b, p, now), Wants(b), now))
  {
    hide Inv, PollActive, Judge, PollSender, MaySend, Kept, Replaced, Wants;
    var k :| 0 <= k < |s.active| && s.active[k] == b;
    PollActiveKeepsInv(s, p, now, k);
    var t := PollActive(s, p, s.active, now, k);
    AtRate(s, t, b.peer, p, now);
    var e := Transmitted(Repeated(b, p, now), Wants(b), now);
    assert PollBurst(t, p, b, now).journal[|t.journal|] == e;
    TurnIsWritten(s, p, now, k, e);
  }

  // ------------------------------------------------------------ after the sweep

  // What the sweep leaves in flight was in flight before.
  ghost predicate Stems(s: Sender, x: Burst) {
    exists y :: y in s.active && y.order == x.order && y.peer == x.peer
  }

  lemma {:induction false} SweepStems(s: Sender, p: Policy, now: nat, n: nat)
    requires Inv(s, p) && p.Valid() && n <= |s.active|
    ensures forall x :: x in PollActive(s, p, s.active, now, n).active ==> Stems(s, x)
  {
    hide Inv, PollBurst, PollActive;
    if n == 0 {
      PollActiveStart(s, p, now);
    } else {
      SweepStems(s, p, now, n - 1);
      PollActiveKeepsInv(s, p, now, n - 1);
      PollActiveStep(s, p, s.active, now, n);
      var t := PollActive(s, p, s.active, now, n - 1);
      TurnStems(t, p, s.active[n - 1], now);
      forall x | x in PollActive(s, p, s.active, now, n).active
        ensures Stems(s, x)
      {
        assert Stems(t, x);
        var y :| y in t.active && y.order == x.order && y.peer == x.peer;
        assert Stems(s, y);
      }
    }
  }

  lemma TurnStems(t: Sender, p: Policy, b: Burst, now: nat)
    requires Inv(t, p) && b in t.active
    ensures forall x :: x in PollBurst(t, p, b, now).active ==> Stems(t, x)
  {
    hide Inv, Judge, MaySend, Replaced, Kept, Solo;
    SoloActive(t, p);
    ReplacedFrom(t, b, Again(b, p, now));
    var v := Judge(b, now);
    if v.Try? {
      ReplacedFrom(t, b, b.(requested := Some(v.indices)));
    }
  }

  lemma ReplacedFrom(t: Sender, b: Burst, c: Burst)
    requires Solo(t.active) && b in t.active && c.order == b.order
    ensures forall x :: x in Replaced(t.active, c) ==> x == c || x in t.active
  {
    hide Replaced, Solo;
    ReplacedMembers(t.active, b, c);
  }

  predicate Spent(a: Burst, p: Policy, now: nat) {
    Due(a, now) && a.attempts >= p.maxAttempts
  }

  ghost predicate AllSpent(bursts: seq<Burst>, p: Policy, peer: string, now: nat) {
    forall a :: a in bursts && a.peer == peer ==> Spent(a, p, now)
  }

  // Giving up a burst is not sending: the sweep leaves the rate of a peer alone
  // to which it sends nothing.
  lemma {:induction false} SweepRate(s: Sender, p: Policy, now: nat, peer: string, n: nat)
    requires Inv(s, p) && p.Valid() && n <= |s.active| && AllSpent(s.active, p, peer, now)
    ensures SameRate(s, PollActive(s, p, s.active, now, n), peer)
  {
    hide Inv, PollBurst, PollActive;
    if n == 0 {
      PollActiveStart(s, p, now);
    } else {
      SweepRate(s, p, now, peer, n - 1);
      PollActiveKeepsInv(s, p, now, n - 1);
      PollActiveStep(s, p, s.active, now, n);
      TurnRate(PollActive(s, p, s.active, now, n - 1), p, s.active[n - 1], now, peer);
    }
  }

  lemma TurnRate(t: Sender, p: Policy, b: Burst, now: nat, peer: string)
    requires Inv(t, p) && b in t.active && (b.peer == peer ==> Spent(b, p, now))
    ensures SameRate(t, PollBurst(t, p, b, now), peer)
  {
    hide Inv, Judge, MaySend, Replaced, Kept;
    FlyingActive(t, p, b);
    JudgedIs(b, p, now);
    PollBurstTouches(t, p, b, now);
  }

  // A peer with nothing in flight, to which the rate limit lets one send.
  predicate Free(s: Sender, p: Policy, peer: string, now: nat) {
    ActiveOf(s.active, peer).None? && MaySend(s, peer, p, now)
  }

  // The same, as it will be once the bursts in flight have had their turn.
  ghost predicate WillBeFree(s: Sender, p: Policy, peer: string, now: nat) {
    AllSpent(s.active, p, peer, now) && RateAllows(s, peer, p, now)
  }

  lemma SweptFree(s: Sender, p: Policy, peer: string, now: nat)
    requires Inv(s, p) && p.Valid()
    ensures Free(PollActive(s, p, s.active, now, |s.active|), p, peer, now) <==> WillBeFree(s, p, peer, now)
  {
    hide Inv, PollActive, Judge, MaySend, RateAllows, Solo, ActiveOf, LiveOrder, Flying, Wants;
    RateIs(s, peer, p, now);
    var t := PollActive(s, p, s.active, now, |s.active|);
    SweepStems(s, p, now, |s.active|);
    SoloActive(s, p);
    if AllSpent(s.active, p, peer, now) {
      SweepRate(s, p, now, peer, |s.active|);
      AtRate(s, t, peer, p, now);
      forall x | x in t.active
        ensures x.peer != peer
      {
        var y :| y in s.active && y.order == x.order && y.peer == x.peer;
        SpentIsGone(s, p, y, now, x);
      }
    } else {
      var a :| a in s.active && a.peer == peer && !Spent(a, p, now);
      UnspentStays(s, p, a, now);
    }
  }

  lemma SpentIsGone(s: Sender, p: Policy, y: Burst, now: nat, x: Burst)
    requires Inv(s, p) && p.Valid() && y in s.active && y.order == x.order
    requires x in PollActive(s, p, s.active, now, |s.active|).active
    ensures !Spent(y, p, now)
  {
    hide Inv, PollActive, Judge, MaySend;
    var k :| 0 <= k < |s.active| && s.active[k] == y;
    PolledAfter(s, p, now, k, |s.active|);
    FlyingActive(s, p, y);
    JudgedIs(y, p, now);
    assert Live(PollActive(s, p, s.active, now, |s.active|), x);
  }

  lemma UnspentStays(s: Sender, p: Policy, a: Burst, now: nat)
    requires Inv(s, p) && p.Valid() && a in s.active && !Spent(a, p, now)
    ensures exists x :: x in PollActive(s, p, s.active, now, |s.active|).active && x.peer == a.peer
  {
    hide Inv, PollActive, Judge, MaySend, Wants;
    var k :| 0 <= k < |s.active| && s.active[k] == a;
    PolledAfter(s, p, now, k, |s.active|);
    FlyingActive(s, p, a);
    JudgedIs(a, p, now);
  }

  // ------------------------------------------------------------------ launching

  lemma ActiveOfAppend(active: seq<Burst>, c: Burst, peer: string)
    ensures ActiveOf(active + [c], peer) == if c.peer == peer then Some(c) else ActiveOf(active, peer)
  {
    assert (active + [c])[..|active|] == active;
  }

  // A turn makes its peer busy, and leaves other peers as they were.
  lemma LaunchFrees(s: Sender, p: Policy, x: Burst, now: nat, peer: string)
    ensures x.peer == peer ==> !Free(Launch(s, p, x, now), p, peer, now)
    ensures x.peer != peer ==> (Free(Launch(s, p, x, now), p, peer, now) <==> Free(s, p, peer, now))
    ensures x.peer == peer && !Free(s, p, peer, now) ==> Launch(s, p, x, now) == s
  {
    hide Kept, ActiveOf;
    ActiveOfAppend(s.active, First(x, p, now), peer);
  }

  lemma {:induction false} UntouchedPeer(s: Sender, p: Policy, c: seq<Burst>, now: nat, peer: string, n: nat)
    requires n <= |c| && forall i :: 0 <= i < n ==> c[i].peer != peer
    ensures Free(LaunchAll(s, p, c, now, n), p, peer, now) <==> Free(s, p, peer, now)
  {
    hide Launch, LaunchAll, Free;
    if n == 0 {
      LaunchStart(s, p, c, now);
    } else {
      UntouchedPeer(s, p, c, now, peer, n - 1);
      LaunchStep(s, p, c, now, n);
      LaunchFrees(LaunchAll(s, p, c, now, n - 1), p, c[n - 1], now, peer);
    }
  }

  // A busy peer stays busy, and what is queued for it stays queued.
  lemma {:induction false} BusyStays(s: Sender, p: Policy, now: nat, peer: string, i: nat, n: nat)
    requires Inv(s, p) && p.Valid() && i <= n <= |Candidates(s.queue)|
    requires !Free(LaunchAll(s, p, Candidates(s.queue), now, i), p, peer, now)
    ensures var c := Candidates(s.queue);
            var t, u := LaunchAll(s, p, c, now, i), LaunchAll(s, p, c, now, n);
            !Free(u, p, peer, now) && forall b :: b in t.queue && b.peer == peer ==> b in u.queue
    decreases n - i
  {
    hide Inv, Launch, LaunchAll, Candidates, Free;
    if i < n {
      var c := Candidates(s.queue);
      BusyStays(s, p, now, peer, i, n - 1);
      LaunchAllKeepsInv(s, p, now, n - 1);
      LaunchStep(s, p, c, now, n);
      var u := LaunchAll(s, p, c, now, n - 1);
      LaunchFrees(u, p, c[n - 1], now, peer);
      LaunchTouches(u, p, c[n - 1], now);
      QueuedOnce(u, p);
    }
  }

  lemma QueuedOnce(s: Sender, p: Policy)
    requires Inv(s, p)
    ensures forall a, b :: a in s.queue && b in s.queue && a.order == b.order ==> a == b
  {
    hide Load, Flying, Unsent;
  }

  // The first of its peer's bursts by (priority, order), sent first of them.
  ghost predicate FirstOfPeer(s: Sender, b: Burst) {
    forall q :: q in s.queue && q.peer == b.peer && q != b ==> Before(b, q)
  }

  lemma SomeoneBefore(s: Sender, p: Policy, b: Burst) returns (q: Burst)
    requires Inv(s, p) && b in s.queue && !FirstOfPeer(s, b)
    ensures q in s.queue && q.peer == b.peer && Before(q, b)
  {
    hide Load, Flying, Unsent;
    QueuedOnce(s, p);
    q :| q in s.queue && q.peer == b.peer && q != b && !Before(b, q);
  }

  // Candidates come in order, so one comes earlier if and only if it is before.
  lemma EarlierIsBefore(s: Sender, p: Policy, i: nat, j: nat)
    requires Inv(s, p) && i < |Candidates(s.queue)| && j < |Candidates(s.queue)|
    ensures i < j <==> Before(Candidates(s.queue)[i], Candidates(s.queue)[j])
  {
    hide Inv, Candidates;
    CandidatesSorted(s, p);
  }

  function Begun(b: Burst, p: Policy, now: nat): Burst {
    b.(attempts := 1, deadline := now + p.ackTimeout)
  }

  lemma LaunchesFirst(s: Sender, p: Policy, b: Burst, now: nat)
    requires Inv(s, p) && p.Valid() && b in s.queue && Free(s, p, b.peer, now) && FirstOfPeer(s, b)
    ensures var t := LaunchAll(s, p, Candidates(s.queue), now, |Candidates(s.queue)|);
            && Begun(b, p, now) in t.active && Newly(s, t, Transmitted(Begun(b, p, now), All(b), now))
  {
    hide Inv, Launch, LaunchAll, Candidates, Free, PollEntry;
    var c := Candidates(s.queue);
    CandidatesSorted(s, p);
    var k :| 0 <= k < |c| && c[k] == b;
    forall i | 0 <= i < k
      ensures c[i].peer != b.peer
    {
      EarlierIsBefore(s, p, i, k);
      EarlierIsBefore(s, p, k, i);
    }
    UntouchedPeer(s, p, c, now, b.peer, k);
    LaunchAllKeepsInv(s, p, now, k);
    LaunchStep(s, p, c, now, k + 1);
    var u := LaunchAll(s, p, c, now, k);
    LaunchesOne(u, p, b, now);
    LaunchAllWrites(s, p, now, k);
    LaunchedStays(s, p, now, k + 1, |c|, Begun(b, p, now));
    var t := LaunchAll(s, p, c, now, |c|);
    assert t.journal[|u.journal|] == Transmitted(Begun(b, p, now), All(b), now);
  }

  lemma LaunchesOne(u: Sender, p: Policy, b: Burst, now: nat)
    requires Free(u, p, b.peer, now)
    ensures var t := Launch(u, p, b, now);
            Begun(b, p, now) in t.active && t.journal == u.journal + [Transmitted(Begun(b, p, now), All(b), now)]
  {
    hide Kept, ActiveOf, All, MaySend;
  }

  lemma {:induction false} LaunchedStays(s: Sender, p: Policy, now: nat, i: nat, n: nat, x: Burst)
    requires Inv(s, p) && p.Valid() && i <= n <= |Candidates(s.queue)|
    requires x in LaunchAll(s, p, Candidates(s.queue), now, i).active
    ensures var c := Candidates(s.queue);
            && x in LaunchAll(s, p, c, now, n).active
            && LaunchAll(s, p, c, now, i).journal <= LaunchAll(s, p, c, now, n).journal
    decreases n - i
  {
    hide Inv, Launch, LaunchAll, Candidates, PollEntry;
    if i < n {
      var c := Candidates(s.queue);
      LaunchedStays(s, p, now, i, n - 1, x);
      LaunchAllKeepsInv(s, p, now, n - 1);
      LaunchStep(s, p, c, now, n);
      LaunchOnly(LaunchAll(s, p, c, now, n - 1), p, c[n - 1], now);
      LaunchWrites(LaunchAll(s, p, c, now, n - 1), p, c[n - 1], now);
    }
  }

  lemma StaysQueued(s: Sender, p: Policy, b: Burst, now: nat)
    requires Inv(s, p) && p.Valid() && b in s.queue && !(Free(s, p, b.peer, now) && FirstOfPeer(s, b))
    ensures b in LaunchAll(s, p, Candidates(s.queue), now, |Candidates(s.queue)|).queue
  {
    hide Inv, Launch, LaunchAll, Candidates, Free;
    var c := Candidates(s.queue);
    CandidatesSorted(s, p);
    if !Free(s, p, b.peer, now) {
      LaunchStart(s, p, c, now);
      BusyStays(s, p, now, b.peer, 0, |c|);
    } else {
      var q := SomeoneBefore(s, p, b);
      var k :| 0 <= k < |c| && c[k] == q;
      var j :| 0 <= j < |c| && c[j] == b;
      EarlierIsBefore(s, p, k, j);
      LaunchStep(s, p, c, now, k + 1);
      LaunchFrees(LaunchAll(s, p, c, now, k), p, q, now, b.peer);
      LaunchAllKeepsInv(s, p, now, k + 1);
      BusyStays(s, p, now, b.peer, k + 1, |c|);
    }
  }

  // ------------------------------------------------------------- queued bursts

  // When a poll sends a queued burst: it is the first of its peer's bursts by
  // (priority, order), the rate limit allows it, and whatever the peer has in
  // flight is given up in this very poll.
  ghost predicate Turn(s: Sender, p: Policy, b: Burst, now: nat) {
    WillBeFree(s, p, b.peer, now) && FirstOfPeer(s, b)
  }

  // A queued burst is sent when its turn has come, all of it at once, and is
  // then in flight with its first attempt made; otherwise it stays queued as
  // it is and nothing of it is sent.
  lemma QueuedIsHandled(s: Sender, p: Policy, b: Burst, now: nat)
    requires Inv(s, p) && p.Valid() && b in s.queue && Accounted(s, p, b.order)
    ensures var t := PollSender(s, p, now);
            if Turn(s, p, b, now) then
              && Begun(b, p, now) in t.active && (forall x :: x in t.queue ==> x.order != b.order)
              && Newly(s, t, Transmitted(Begun(b, p, now), All(b), now)) && SentOnceMore(s, t, b.order)
            else
              b in t.queue && NotSent(s, t, b.order)
  {
    hide Inv, PollActive, LaunchAll, Candidates, Free, WillBeFree, All, PollEntry, Sends, Exits, PollSender;
    PollActiveKeepsInv(s, p, now, |s.active|);
    PollActiveWrites(s, p, now, |s.active|);
    SweptFree(s, p, b.peer, now);
    PollAccounts(s, p, now, b.order);
    PollKeepsInv(s, p, now);
    PollSplit(s, p, now);
    assert Live(s, b);
    NeverSent(s, p, b);
    var swept, t := PollActive(s, p, s.active, now, |s.active|), PollSender(s, p, now);
    if Turn(s, p, b, now) {
      LaunchesFirst(swept, p, b, now);
      NotQueued(t, p, Begun(b, p, now));
      assert Live(t, Begun(b, p, now));
    } else {
      StaysQueued(swept, p, b, now);
      assert Live(t, b);
    }
  }

  lemma PollSplit(s: Sender, p: Policy, now: nat)
    ensures var swept := PollActive(s, p, s.active, now, |s.active|);
            PollSender(s, p, now) == LaunchAll(swept, p, Candidates(swept.queue), now, |Candidates(swept.queue)|)
  {
    hide PollActive, LaunchAll, Candidates;
  }
}
