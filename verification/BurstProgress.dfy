// What a poll does to each burst in flight, why every burst comes to an end,
// and how long a repair request governs what is sent.
module BurstProgress {
  import opened Prelude
  import opened Carriage
  import opened Reassembly
  import opened Burst
  import opened BurstProofs
  import opened BurstRuns
  import opened BurstOutcomes

  // ------------------------------------------------------- one poll, one burst

  // What became of `b`, in flight in `s`, once it has been polled.
  ghost predicate Polled(s: Sender, p: Policy, b: Burst, now: nat, t: Sender) {
    var v := Judge(b, now);
    if v.Rest? then b in t.active
    else if v.GiveUp? || b.attempts >= p.maxAttempts then !LiveOrder(t, b.order)
    else if MaySend(s, b.peer, p, now) then Again(b, p, now) in t.active
    else b.(requested := Some(v.indices)) in t.active
  }

  lemma PollBurstPolled(s: Sender, p: Policy, b: Burst, now: nat)
    requires Inv(s, p) && b in s.active
    ensures Polled(s, p, b, now, PollBurst(s, p, b, now))
  {
    hide Inv, Judge, Leave, MaySend, Replaced, Solo, Flying;
    SoloActive(s, p);
    LeaveLives(s, p, b, Exhausted, b.order);
    ReplacedMembers(s.active, b, Again(b, p, now));
    var v := Judge(b, now);
    if v.Try? {
      ReplacedMembers(s.active, b, b.(requested := Some(v.indices)));
    }
  }

  lemma PolledStays(s: Sender, p: Policy, b: Burst, now: nat, t: Sender, u: Sender, other: Burst)
    requires Polled(s, p, b, now, t) && OnlyTouches(t, u, other) && other.order != b.order
    ensures Polled(s, p, b, now, u)
  {
    hide Judge, MaySend;
    if LiveOrder(u, b.order) {
      var x :| Live(u, x) && x.order == b.order;
      assert Live(t, x);
    }
  }

  lemma PolledFrom(s: Sender, p: Policy, b: Burst, now: nat, t: Sender, u: Sender)
    requires Polled(t, p, b, now, u) && SameRate(s, t, b.peer)
    ensures Polled(s, p, b, now, u)
  {
    hide Judge, LiveOrder;
  }

  lemma {:induction false} PolledAfter(s: Sender, p: Policy, now: nat, k: nat, n: nat)
    requires Inv(s, p) && p.Valid() && k < n <= |s.active|
    ensures Polled(s, p, s.active[k], now, PollActive(s, p, s.active, now, n))
    decreases n
  {
    hide Inv, PollBurst, PollActive, Polled, OnlyTouches;
    var t := PollActive(s, p, s.active, now, n - 1);
    PollActiveKeepsInv(s, p, now, n - 1);
    PollActiveStep(s, p, s.active, now, n);
    SoloActive(s, p);
    if k == n - 1 {
      PollBurstPolled(t, p, s.active[k], now);
      PolledFrom(s, p, s.active[k], now, t, PollBurst(t, p, s.active[k], now));
    } else {
      PolledAfter(s, p, now, k, n - 1);
      PollBurstTouches(t, p, s.active[n - 1], now);
      PolledStays(s, p, s.active[k], now, t, PollBurst(t, p, s.active[n - 1], now), s.active[n - 1]);
    }
  }

  // Launching only adds to what is in flight, and only from the queue.
  ghost predicate OnlyLaunches(s: Sender, t: Sender) {
    && (forall b :: b in s.active ==> b in t.active)
    && (forall order :: LiveOrder(t, order) ==> LiveOrder(s, order))
  }

  lemma LaunchOnly(s: Sender, p: Policy, b: Burst, now: nat)
    requires Inv(s, p) && b in s.queue
    ensures OnlyLaunches(s, Launch(s, p, b, now))
  {
    hide Inv, MaySend, Kept, ActiveOf;
    var t := Launch(s, p, b, now);
    if ActiveOf(s.active, b.peer).None? && MaySend(s, b.peer, p, now) {
      forall order | LiveOrder(t, order)
        ensures LiveOrder(s, order)
      {
        LaunchLives(s, p, b, First(b, p, now), t, order);
      }
    }
  }

  lemma {:induction false} LaunchAllOnly(s: Sender, p: Policy, now: nat, n: nat)
    requires Inv(s, p) && p.Valid() && n <= |Candidates(s.queue)|
    ensures OnlyLaunches(s, LaunchAll(s, p, Candidates(s.queue), now, n))
  {
    hide Inv, Launch, LaunchAll, Candidates;
    var c := Candidates(s.queue);
    if n == 0 {
      LaunchStart(s, p, c, now);
    } else {
      LaunchAllOnly(s, p, now, n - 1);
      LaunchAllKeepsInv(s, p, now, n - 1);
      LaunchStep(s, p, c, now, n);
      LaunchOnly(LaunchAll(s, p, c, now, n - 1), p, c[n - 1], now);
    }
  }

  // Every burst in flight when a poll begins is judged exactly once: left
  // alone, given up, sent again, or put off by the rate limit.
  lemma PollOutcome(s: Sender, p: Policy, b: Burst, now: nat)
    requires Inv(s, p) && p.Valid() && b in s.active
    ensures Polled(s, p, b, now, PollSender(s, p, now))
  {
    hide Inv, PollActive, LaunchAll, Candidates, Judge, MaySend, LiveOrder;
    var k :| 0 <= k < |s.active| && s.active[k] == b;
    PolledAfter(s, p, now, k, |s.active|);
    PollActiveKeepsInv(s, p, now, |s.active|);
    var t := PollActive(s, p, s.active, now, |s.active|);
    LaunchAllOnly(t, p, now, |Candidates(t.queue)|);
  }

  // ------------------------------------------------------------ bounded lives

  // A poll late enough, and allowed by the rate limit, to act on the burst.
  ghost predicate ActsOn(s: Sender, p: Policy, e: Event, order: nat) {
    e.Poll? && exists b :: b in s.active && b.order == order && e.now >= b.deadline && MaySend(s, b.peer, p, e.now)
  }

  ghost function Acts(p: Policy, events: seq<Event>, order: nat, n: nat): nat
    requires n <= |events|
  {
    if n == 0 then 0
    else Acts(p, events, order, n - 1) + if ActsOn(After(p, events, n - 1), p, events[n - 1], order) then 1 else 0
  }

  lemma CountPrefix(a: seq<Entry>, b: seq<Entry>, order: nat)
    requires a <= b
    ensures Sends(a, order) <= Sends(b, order) && Exits(a, order) <= Exits(b, order)
  {
    assert b == a + b[|a|..];
    CountConcat(a, b[|a|..], order);
  }

  // Each such poll either sends the burst once more or ends it.
  lemma ActMeansProgress(s: Sender, p: Policy, e: Event, order: nat)
    requires Inv(s, p) && p.Valid() && Accounted(s, p, order) && ActsOn(s, p, e, order)
    ensures var t := Step(s, p, e);
            && 1 <= Sends(s.journal, order) && Exits(s.journal, order) == 0
            && Sends(t.journal, order) + Exits(t.journal, order) >= Sends(s.journal, order) + 1
  {
    hide Inv, PollSender, Judge, MaySend, Sends, Exits;
    var b :| b in s.active && b.order == order && e.now >= b.deadline && MaySend(s, b.peer, p, e.now);
    FlyingActive(s, p, b);
    VerdictOfFlying(b, p, e.now);
    PollOutcome(s, p, b, e.now);
    StepAccounts(s, p, e, order);
    StepWrites(s, p, e);
    CountPrefix(s.journal, Step(s, p, e).journal, order);
    NextOrderGrows(s, p, e.now);
    assert Live(s, b);
    if b.attempts < p.maxAttempts {
      assert Live(Step(s, p, e), Again(b, p, e.now));
    }
  }

  lemma NextOrderGrows(s: Sender, p: Policy, now: nat)
    requires Inv(s, p) && p.Valid()
    ensures PollSender(s, p, now).nextOrder == s.nextOrder
  {
    hide Inv, PollActive, LaunchAll, Candidates;
    PollActiveKeepsInv(s, p, now, |s.active|);
    var t := PollActive(s, p, s.active, now, |s.active|);
    LaunchAllKeepsInv(t, p, now, |Candidates(t.queue)|);
  }

  lemma {:induction false} ActsAreCounted(p: Policy, events: seq<Event>, order: nat, n: nat)
    requires p.Valid() && n <= |events|
    ensures var journal := After(p, events, n).journal;
            Acts(p, events, order, n) == 0 || Acts(p, events, order, n) + 1 <= Sends(journal, order) + Exits(journal, order)
  {
    hide Inv, Step, ActsOn, Sends, Exits, Accounted;
    if n == 0 {
    } else {
      var s := After(p, events, n - 1);
      ActsAreCounted(p, events, order, n - 1);
      RunKeepsInv(p, events, n - 1);
      RunAccounts(p, events, n - 1, order);
      StepWrites(s, p, events[n - 1]);
      CountPrefix(s.journal, After(p, events, n).journal, order);
      if ActsOn(s, p, events[n - 1], order) {
        ActMeansProgress(s, p, events[n - 1], order);
      }
    }
  }

  // Whatever else happens, a burst that is never confirmed outlives at most
  // maxAttempts - 1 polls past its deadline and rate limit; the next one finds
  // it gone. Remaining attempts are what decreases. Here the events are any
  // moves in any order; SelectiveProgress says it of runs of the adapter.
  lemma LivesAreBounded(p: Policy, events: seq<Event>, order: nat, n: nat)
    requires p.Valid() && n <= |events|
    ensures Acts(p, events, order, n) <= p.maxAttempts
    ensures LiveOrder(After(p, events, n), order) ==> Acts(p, events, order, n) < p.maxAttempts
  {
    hide Inv, Acts, Sends, Exits, After;
    ActsAreCounted(p, events, order, n);
    RunAccounts(p, events, n, order);
  }

  // --------------------------------------------------------- repair requests

  // Burst `order`, in flight or gone, is under repair for exactly `wanted`,
  // and has been sent only so since the journal had `start` entries.
  ghost predicate Governed(s: Sender, order: nat, wanted: set<nat>, start: nat) {
    && order < s.nextOrder && start <= |s.journal|
    && (forall b :: b in s.queue ==> b.order != order)
    && (forall b :: b in s.active && b.order == order ==> RepairsOnly(b, wanted))
    && (forall i :: start <= i < |s.journal| ==> SentOnly(s.journal[i], order, wanted))
  }

  predicate RepairsOnly(b: Burst, wanted: set<nat>) {
    b.repairActive && b.repairIndices == Some(wanted) && (b.requested == None || b.requested == Some(wanted))
  }

  predicate SentOnly(e: Entry, order: nat, wanted: set<nat>) {
    e.Transmitted? && e.burst.order == order ==> e.indices == wanted
  }

  // A step that keeps bursts or loses them, and sends nothing else of this one.
  lemma GovernedStays(s: Sender, order: nat, wanted: set<nat>, start: nat, t: Sender)
    requires Governed(s, order, wanted, start)
    requires s.nextOrder <= t.nextOrder && s.journal <= t.journal
    requires forall b :: b in t.queue && b.order == order ==> b in s.queue
    requires forall b :: b in t.active && b.order == order ==> RepairsOnly(b, wanted)
    requires forall i :: |s.journal| <= i < |t.journal| ==> SentOnly(t.journal[i], order, wanted)
    ensures Governed(t, order, wanted, start)
  {
    hide RepairsOnly, SentOnly;
    forall i | start <= i < |t.journal|
      ensures SentOnly(t.journal[i], order, wanted)
    {
      if i < |s.journal| {
        assert t.journal[i] == s.journal[i];
      }
    }
  }

  lemma DropGoverned(s: Sender, dropped: set<nat>, reason: Reason, order: nat, wanted: set<nat>, start: nat)
    requires Governed(s, order, wanted, start)
    ensures Governed(Drop(s, dropped, reason), order, wanted, start)
  {
    hide Drop, RepairsOnly;
    DropJournal(s, dropped, reason);
    DropMembers(s, dropped, reason);
    GovernedStays(s, order, wanted, start, Drop(s, dropped, reason));
  }

  lemma DropMembers(s: Sender, dropped: set<nat>, reason: Reason)
    ensures var t := Drop(s, dropped, reason);
            && t.nextOrder == s.nextOrder
            && (forall b :: b in t.queue ==> b in s.queue) && (forall b :: b in t.active ==> b in s.active)
  {
    hide Departures, Kept;
  }

  lemma LeaveGoverned(s: Sender, b: Burst, reason: Reason, order: nat, wanted: set<nat>, start: nat)
    requires Governed(s, order, wanted, start)
    ensures Governed(Leave(s, b, reason), order, wanted, start)
  {
    hide Kept, RepairsOnly;
    LeaveWrites(s, b, reason);
    GovernedStays(s, order, wanted, start, Leave(s, b, reason));
  }

  lemma AmendGoverned(s: Sender, p: Policy, b: Burst, c: Burst, order: nat, wanted: set<nat>, start: nat)
    requires Inv(s, p) && b in s.active && Restated(b, c) && Governed(s, order, wanted, start)
    requires c.order == order ==> RepairsOnly(c, wanted)
    ensures Governed(Amend(s, c), order, wanted, start)
  {
    hide Inv, RepairsOnly, Replaced, Solo;
    SoloActive(s, p);
    ReplacedMembers(s.active, b, c);
    GovernedStays(s, order, wanted, start, Amend(s, c));
  }

  lemma PollBurstGoverned(s: Sender, p: Policy, b: Burst, now: nat, order: nat, wanted: set<nat>, start: nat)
    requires Inv(s, p) && b in s.active && Governed(s, order, wanted, start)
    ensures Governed(PollBurst(s, p, b, now), order, wanted, start)
  {
    hide Inv, Leave, MaySend, Replaced, Governed, All, Judge;
    GovernedBurst(s, b, now, order, wanted, start);
    LeaveGoverned(s, b, Exhausted, order, wanted, start);
    var t, v := PollBurst(s, p, b, now), Judge(b, now);
    if v.Try? && b.attempts < p.maxAttempts {
      if !MaySend(s, b.peer, p, now) {
        AmendGoverned(s, p, b, b.(requested := Some(v.indices)), order, wanted, start);
      } else {
        AmendGoverned(s, p, b, Again(b, p, now), order, wanted, start);
        SentGoverned(Amend(s, Again(b, p, now)), Transmitted(Again(b, p, now), v.indices, now), order, wanted, start, t);
      }
    }
  }

  lemma GovernedBurst(s: Sender, b: Burst, now: nat, order: nat, wanted: set<nat>, start: nat)
    requires b in s.active && Governed(s, order, wanted, start)
    ensures b.order == order ==>
              RepairsOnly(b, wanted) && (Judge(b, now).Try? ==> Judge(b, now).indices == wanted)
  {
    hide SentOnly;
  }

  lemma SentGoverned(s: Sender, e: Entry, order: nat, wanted: set<nat>, start: nat, t: Sender)
    requires Governed(s, order, wanted, start) && SentOnly(e, order, wanted)
    requires t.queue == s.queue && t.active == s.active && t.nextOrder == s.nextOrder && t.journal == s.journal + [e]
    ensures Governed(t, order, wanted, start)
  {
    hide RepairsOnly, SentOnly;
    GovernedStays(s, order, wanted, start, t);
  }

  lemma LaunchGoverned(s: Sender, p: Policy, b: Burst, now: nat, order: nat, wanted: set<nat>, start: nat)
    requires b in s.queue && Governed(s, order, wanted, start)
    ensures Governed(Launch(s, p, b, now), order, wanted, start)
  {
    hide MaySend, Kept, ActiveOf, RepairsOnly, All;
    GovernedStays(s, order, wanted, start, Launch(s, p, b, now));
  }

  lemma {:induction false} PollActiveGoverned(s: Sender, p: Policy, now: nat, n: nat, order: nat, wanted: set<nat>, start: nat)
    requires Inv(s, p) && p.Valid() && n <= |s.active| && Governed(s, order, wanted, start)
    ensures Governed(PollActive(s, p, s.active, now, n), order, wanted, start)
  {
    hide Inv, PollBurst, PollActive, Governed;
    if n == 0 {
      PollActiveStart(s, p, now);
    } else {
      PollActiveGoverned(s, p, now, n - 1, order, wanted, start);
      PollActiveKeepsInv(s, p, now, n - 1);
      PollActiveStep(s, p, s.active, now, n);
      PollBurstGoverned(PollActive(s, p, s.active, now, n - 1), p, s.active[n - 1], now, order, wanted, start);
    }
  }

  lemma {:induction false} LaunchAllGoverned(s: Sender, p: Policy, now: nat, n: nat, order: nat, wanted: set<nat>, start: nat)
    requires Inv(s, p) && p.Valid() && n <= |Candidates(s.queue)| && Governed(s, order, wanted, start)
    ensures Governed(LaunchAll(s, p, Candidates(s.queue), now, n), order, wanted, start)
  {
    hide Inv, Launch, LaunchAll, Candidates, Governed;
    var c := Candidates(s.queue);
    if n == 0 {
      LaunchStart(s, p, c, now);
    } else {
      LaunchAllGoverned(s, p, now, n - 1, order, wanted, start);
      LaunchAllKeepsInv(s, p, now, n - 1);
      LaunchStep(s, p, c, now, n);
      LaunchGoverned(LaunchAll(s, p, c, now, n - 1), p, c[n - 1], now, order, wanted, start);
    }
  }

  lemma PollGoverned(s: Sender, p: Policy, now: nat, order: nat, wanted: set<nat>, start: nat)
    requires Inv(s, p) && p.Valid() && Governed(s, order, wanted, start)
    ensures Governed(PollSender(s, p, now), order, wanted, start)
  {
    hide Inv, PollActive, LaunchAll, Candidates, Governed;
    PollActiveKeepsInv(s, p, now, |s.active|);
    PollActiveGoverned(s, p, now, |s.active|, order, wanted, start);
    var t := PollActive(s, p, s.active, now, |s.active|);
    LaunchAllGoverned(t, p, now, |Candidates(t.queue)|, order, wanted, start);
  }

  lemma QueueFrameGoverned(s: Sender, p: Policy, r: Request, order: nat, wanted: set<nat>, start: nat)
    requires Governed(s, order, wanted, start)
    ensures Governed(QueueFrame(s, p, r).sender, order, wanted, start)
  {
    hide Search, TakenIds, ValidPeer, PushedOut, Drop, FragmentFrame, Load, RepairsOnly, SentOnly;
    var cleared := if r.proactive then Drop(s, PushedOut(s, r.peer), Superseded) else s;
    DropGoverned(s, PushedOut(s, r.peer), Superseded, order, wanted, start);
    if ValidPeer(r.peer) {
      GovernedStays(cleared, order, wanted, start, QueueFrame(s, p, r).sender);
    }
  }

  // A negative acknowledgement that is about burst `order`.
  ghost predicate RequestsAgain(s: Sender, e: Event, order: nat) {
    e.Nacked? && InFlight(s, e.peer, e.id).Some? && InFlight(s, e.peer, e.id).value.order == order
    && Wanted(InFlight(s, e.peer, e.id).value, e.missing) != {}
  }

  lemma StepGoverned(s: Sender, p: Policy, e: Event, order: nat, wanted: set<nat>, start: nat)
    requires Inv(s, p) && p.Valid() && Governed(s, order, wanted, start) && !RequestsAgain(s, e, order)
    ensures Governed(Step(s, p, e), order, wanted, start)
  {
    hide Inv, QueueFrame, Drop, PollSender, Leave, Amend, InFlight, Outdated, Redundant, Wanted, Governed;
    match e
    case Enqueue(request) => QueueFrameGoverned(s, p, request, order, wanted, start);
    case Acked(peer, id) =>
      var b := InFlight(s, peer, id);
      if b.Some? {
        LeaveGoverned(s, b.value, Confirmed, order, wanted, start);
      }
    case Nacked(peer, id, missing) =>
      var b := InFlight(s, peer, id);
      InFlightIsActive(s, peer, id);
      if b.Some? && Wanted(b.value, missing) != {} {
        AmendGoverned(s, p, b.value, Repairing(b.value, Wanted(b.value, missing)), order, wanted, start);
      }
    case NewBatch(peer, batch) => DropGoverned(s, Outdated(s, peer, batch), Superseded, order, wanted, start);
    case StoredBatch(batch) => DropGoverned(s, Redundant(s, batch), Compacted, order, wanted, start);
    case Poll(now) => PollGoverned(s, p, now, order, wanted, start);
  }

  // An N2 for a burst in flight puts it under repair for what it asks.
  lemma RepairGoverns(s: Sender, p: Policy, peer: string, id: string, missing: set<nat>)
    requires Inv(s, p) && InFlight(s, peer, id).Some? && Wanted(InFlight(s, peer, id).value, missing) != {}
    ensures var b := InFlight(s, peer, id).value;
            var t := Repair(s, peer, id, missing);
            && Governed(t, b.order, Wanted(b, missing), |s.journal|)
            && Repairing(b, Wanted(b, missing)) in t.active
  {
    hide Inv, InFlight, Wanted, Replaced, Solo;
    var b := InFlight(s, peer, id).value;
    InFlightIsActive(s, peer, id);
    SoloActive(s, p);
    LiveBound(s, p);
    assert Live(s, b);
    ReplacedMembers(s.active, b, Repairing(b, Wanted(b, missing)));
    NotQueued(s, p, b);
  }

  lemma NotQueued(s: Sender, p: Policy, b: Burst)
    requires Inv(s, p) && b in s.active
    ensures forall x :: x in s.queue ==> x.order != b.order
  {
  }

  // From then on, until an N2 for the burst asks for something, every
  // transmission of it carries exactly the fragments asked for.
  lemma {:induction false} RepairGovernsRun(p: Policy, events: seq<Event>, i: nat, n: nat, order: nat, wanted: set<nat>, start: nat)
    requires p.Valid() && i <= n <= |events| && Governed(After(p, events, i), order, wanted, start)
    requires forall k :: i <= k < n ==> !RequestsAgain(After(p, events, k), events[k], order)
    ensures Governed(After(p, events, n), order, wanted, start)
    decreases n - i
  {
    hide Inv, Step, Governed, RequestsAgain;
    if i < n {
      RepairGovernsRun(p, events, i, n - 1, order, wanted, start);
      RunKeepsInv(p, events, n - 1);
      StepGoverned(After(p, events, n - 1), p, events[n - 1], order, wanted, start);
    }
  }

  // The next poll the rate limit and the attempts allow sends exactly that.
  lemma RepairIsSent(s: Sender, p: Policy, b: Burst, wanted: set<nat>, now: nat)
    requires Inv(s, p) && p.Valid() && b in s.active && b.requested == Some(wanted)
    requires b.attempts < p.maxAttempts && MaySend(s, b.peer, p, now)
    ensures Again(b, p, now) in PollSender(s, p, now).active
    ensures exists i :: |s.journal| <= i < |PollSender(s, p, now).journal|
                     && PollSender(s, p, now).journal[i] == Transmitted(Again(b, p, now), wanted, now)
  {
    hide Inv, PollActive, LaunchAll, Candidates, MaySend, PollSender;
    PollOutcome(s, p, b, now);
    RepairJournal(s, p, b, wanted, now);
  }

  lemma RepairJournal(s: Sender, p: Policy, b: Burst, wanted: set<nat>, now: nat)
    requires Inv(s, p) && p.Valid() && b in s.active && b.requested == Some(wanted)
    requires b.attempts < p.maxAttempts && MaySend(s, b.peer, p, now)
    ensures exists i :: |s.journal| <= i < |PollSender(s, p, now).journal|
                     && PollSender(s, p, now).journal[i] == Transmitted(Again(b, p, now), wanted, now)
  {
    hide Inv, PollActive, LaunchAll, Candidates, MaySend, PollBurst, PollEntry;
    var k :| 0 <= k < |s.active| && s.active[k] == b;
    PollActiveKeepsInv(s, p, now, k);
    PollActiveKeepsInv(s, p, now, |s.active|);
    PollActiveWrites(s, p, now, k);
    var t := PollActive(s, p, s.active, now, k);
    var swept := PollActive(s, p, s.active, now, |s.active|);
    PollActiveStep(s, p, s.active, now, k + 1);
    BurstSent(t, p, b, wanted, now);
    AtRate(s, t, b.peer, p, now);
    JournalGrows(s, p, now, k + 1, |s.active|);
    LaunchAllWrites(swept, p, now, |Candidates(swept.queue)|);
    assert PollSender(s, p, now).journal[|t.journal|] == Transmitted(Again(b, p, now), wanted, now);
  }

  lemma AtRate(s: Sender, t: Sender, peer: string, p: Policy, now: nat)
    requires SameRate(s, t, peer)
    ensures MaySend(s, peer, p, now) <==> MaySend(t, peer, p, now)
  {
  }

  lemma BurstSent(t: Sender, p: Policy, b: Burst, wanted: set<nat>, now: nat)
    requires b.requested == Some(wanted) && b.attempts < p.maxAttempts
    ensures MaySend(t, b.peer, p, now) ==>
              PollBurst(t, p, b, now).journal == t.journal + [Transmitted(Again(b, p, now), wanted, now)]
  {
    hide MaySend, Replaced;
  }

  lemma {:induction false} JournalGrows(s: Sender, p: Policy, now: nat, i: nat, n: nat)
    requires Inv(s, p) && p.Valid() && i <= n <= |s.active|
    ensures PollActive(s, p, s.active, now, i).journal <= PollActive(s, p, s.active, now, n).journal
    decreases n - i
  {
    hide Inv, PollBurst, PollActive, PollEntry;
    if i < n {
      JournalGrows(s, p, now, i, n - 1);
      PollActiveKeepsInv(s, p, now, n - 1);
      PollActiveStep(s, p, s.active, now, n);
      PollBurstWrites(PollActive(s, p, s.active, now, n - 1), p, s.active[n - 1], now);
    }
  }
}
