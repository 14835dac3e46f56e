// Spacing of transmissions, why bursts leave, and progress towards an outcome.
module BurstOutcomes {
  import opened Prelude
  import opened Carriage
  import opened Reassembly
  import opened Burst
  import opened BurstProofs
  import opened BurstRuns

  // ------------------------------------------------------------------ spacing

  ghost predicate Spaced(s: Sender, p: Policy) {
    && (forall i :: 0 <= i < |s.journal| && s.journal[i].Transmitted? ==>
          var peer := s.journal[i].burst.peer;
          peer in s.lastSend && s.journal[i].at <= s.lastSend[peer])
    && (forall i, j :: 0 <= i < j < |s.journal| && s.journal[i].Transmitted? && s.journal[j].Transmitted?
                       && s.journal[i].burst.peer == s.journal[j].burst.peer ==>
          s.journal[j].at - s.journal[i].at >= p.minInterval)
  }

  // What Core is told when a burst leaves.
  function CallFor(e: Entry): Option<CoreMark> {
    if !e.Left? || e.burst.delivery.None? then None
    else match e.reason
      case Confirmed => Some(MarkDelivered(e.burst.delivery.value))
      case Exhausted => Some(MarkFailed(e.burst.delivery.value))
      case _ => None
  }

  // Core is told of a delivery right after the burst that carried it left, and
  // told nothing else.
  ghost predicate CallsMatch(journal: seq<Entry>) {
    && (forall i :: 0 <= i < |journal| && journal[i].Marked? ==>
          i > 0 && CallFor(journal[i - 1]) == Some(journal[i].mark))
    && (forall i :: 0 <= i < |journal| && CallFor(journal[i]).Some? ==>
          i + 1 < |journal| && journal[i + 1] == Marked(CallFor(journal[i]).value))
  }

  lemma CallsConcat(a: seq<Entry>, b: seq<Entry>)
    requires CallsMatch(a) && CallsMatch(b)
    ensures CallsMatch(a + b)
  {
    hide CallFor;
    var c := a + b;
    forall i | 0 <= i < |c| && c[i].Marked?
      ensures i > 0 && CallFor(c[i - 1]) == Some(c[i].mark)
    {
      if i >= |a| {
        assert b[i - |a|] == c[i];
        assert b[i - |a| - 1] == c[i - 1];
      }
    }
    forall i | 0 <= i < |c| && CallFor(c[i]).Some?
      ensures i + 1 < |c| && c[i + 1] == Marked(CallFor(c[i]).value)
    {
      if i >= |a| {
        assert b[i - |a|] == c[i];
        assert b[i - |a| + 1] == c[i + 1];
      } else {
        assert a[i] == c[i];
      }
    }
  }

  ghost predicate Orderly(s: Sender, p: Policy) {
    Spaced(s, p) && CallsMatch(s.journal)
  }

  lemma TransmissionOrderly(s: Sender, p: Policy, c: Burst, indices: set<nat>, now: nat, t: Sender)
    requires Orderly(s, p) && MaySend(s, c.peer, p, now)
    requires t.journal == s.journal + [Transmitted(c, indices, now)] && t.lastSend == s.lastSend[c.peer := now]
    ensures Orderly(t, p)
  {
    LoneCall(Transmitted(c, indices, now));
    CallsConcat(s.journal, [Transmitted(c, indices, now)]);
  }

  lemma LoneCall(e: Entry)
    requires !e.Marked? && CallFor(e).None?
    ensures CallsMatch([e])
  {
  }

  lemma FarewellOrderly(s: Sender, p: Policy, said: seq<Entry>, t: Sender)
    requires Orderly(s, p) && t.journal == s.journal + said && t.lastSend == s.lastSend
    requires CallsMatch(said) && forall i :: 0 <= i < |said| ==> !said[i].Transmitted?
    ensures Orderly(t, p)
  {
    hide CallFor, CallsMatch;
    CallsConcat(s.journal, said);
  }

  ghost predicate Farewell(e: Entry, bursts: seq<Burst>, dropped: set<nat>, reason: Reason) {
    e.Left? && e.reason == reason && e.burst in bursts && e.burst.order in dropped
  }

  lemma {:induction false} DeparturesAre(bursts: seq<Burst>, dropped: set<nat>, reason: Reason)
    ensures forall e :: e in Departures(bursts, dropped, reason) ==> Farewell(e, bursts, dropped, reason)
  {
    hide Departures;
    if bursts == [] {
      NoDepartures(dropped, reason, 0);
    } else {
      DeparturesStep(bursts, dropped, reason);
      DeparturesAre(bursts[..|bursts| - 1], dropped, reason);
    }
  }

  // ------------------------------------------- what each step may write down

  // The entries event `e` may add to the journal of `s`.
  ghost predicate Allowed(s: Sender, p: Policy, e: Event, x: Entry) {
    match e
    case Enqueue(r) =>
      x.Left? && x.reason == Superseded && r.proactive && Live(s, x.burst) && x.burst.peer == r.peer && x.burst.batch.Some?
    case Acked(peer, id) =>
      || (x.Left? && x.reason == Confirmed && x.burst in s.active && x.burst.peer == peer && x.burst.transactionId == id)
      || (x.Marked? && x.mark.MarkDelivered?)
    case Nacked(_, _, _) => false
    case NewBatch(_, _) => x.Left? && x.reason == Superseded && Live(s, x.burst) && x.burst.batch.Some?
    case StoredBatch(batch) => x.Left? && x.reason == Compacted && Live(s, x.burst) && x.burst.batch == Some(batch)
    case Poll(now) => PollEntry(p, now, x)
  }

  predicate PollEntry(p: Policy, now: nat, x: Entry) {
    match x
    case Transmitted(b, indices, at) => at == now && indices != {} && indices <= All(b) && 1 <= b.attempts <= p.maxAttempts
    case Left(b, reason) => reason == Exhausted && b.attempts == p.maxAttempts
    case Marked(mark) => mark.MarkFailed?
  }

  ghost predicate Wrote(s: Sender, p: Policy, e: Event, t: Sender) {
    s.journal <= t.journal && forall i :: |s.journal| <= i < |t.journal| ==> Allowed(s, p, e, t.journal[i])
  }

  ghost predicate PollWrote(s: Sender, p: Policy, now: nat, t: Sender) {
    s.journal <= t.journal && forall i :: |s.journal| <= i < |t.journal| ==> PollEntry(p, now, t.journal[i])
  }

  lemma DropJournal(s: Sender, dropped: set<nat>, reason: Reason)
    ensures var t := Drop(s, dropped, reason);
            && s.journal <= t.journal && t.lastSend == s.lastSend
            && (forall i :: |s.journal| <= i < |t.journal| ==>
                  && t.journal[i].Left? && t.journal[i].reason == reason
                  && Live(s, t.journal[i].burst) && t.journal[i].burst.order in dropped)
  {
    hide Departures, Kept;
    DeparturesAre(s.active, dropped, reason);
    DeparturesAre(s.queue, dropped, reason);
    var t := Drop(s, dropped, reason);
    var a, q := Departures(s.active, dropped, reason), Departures(s.queue, dropped, reason);
    forall i | |s.journal| <= i < |t.journal|
      ensures t.journal[i].Left? && t.journal[i].reason == reason
      ensures Live(s, t.journal[i].burst) && t.journal[i].burst.order in dropped
    {
      var k := i - |s.journal|;
      if k < |a| {
        assert t.journal[i] == a[k];
        assert a[k] in a;
      } else {
        assert t.journal[i] == q[k - |a|];
        assert q[k - |a|] in q;
      }
    }
  }

  lemma {:induction false} DeparturesCalls(bursts: seq<Burst>, dropped: set<nat>, reason: Reason)
    requires reason == Superseded || reason == Compacted
    ensures CallsMatch(Departures(bursts, dropped, reason))
    ensures forall e :: e in Departures(bursts, dropped, reason) ==> !e.Transmitted?
  {
    hide Departures;
    if bursts == [] {
      NoDepartures(dropped, reason, 0);
    } else {
      DeparturesStep(bursts, dropped, reason);
      DeparturesCalls(bursts[..|bursts| - 1], dropped, reason);
      LoneCall(Left(bursts[|bursts| - 1], reason));
      CallsConcat(Departures(bursts[..|bursts| - 1], dropped, reason), [Left(bursts[|bursts| - 1], reason)]);
    }
  }

  lemma DropOrderly(s: Sender, p: Policy, dropped: set<nat>, reason: Reason)
    requires reason == Superseded || reason == Compacted
    ensures Orderly(s, p) ==> Orderly(Drop(s, dropped, reason), p)
  {
    hide Departures, Kept, Orderly, CallsMatch;
    DeparturesCalls(s.active, dropped, reason);
    DeparturesCalls(s.queue, dropped, reason);
    var a, q := Departures(s.active, dropped, reason), Departures(s.queue, dropped, reason);
    CallsConcat(a, q);
    var t := Drop(s, dropped, reason);
    assert t.journal == s.journal + (a + q);
    if Orderly(s, p) {
      FarewellOrderly(s, p, a + q, t);
    }
  }

  lemma LeaveOrderly(s: Sender, p: Policy, b: Burst, reason: Reason)
    requires reason == Confirmed || reason == Exhausted
    ensures Orderly(s, p) ==> Orderly(Leave(s, b, reason), p)
  {
    hide Kept, Orderly;
    var t := Leave(s, b, reason);
    var call := CallFor(Left(b, reason));
    var said := if call.None? then [Left(b, reason)] else [Left(b, reason), Marked(call.value)];
    assert t.journal == s.journal + said;
    if Orderly(s, p) {
      FarewellOrderly(s, p, said, t);
    }
  }

  lemma SameOrderly(s: Sender, p: Policy, t: Sender)
    requires t.journal == s.journal && t.lastSend == s.lastSend
    ensures Orderly(s, p) ==> Orderly(t, p)
  {
    hide CallsMatch;
  }

  lemma DropWrites(s: Sender, p: Policy, e: Event, dropped: set<nat>, reason: Reason)
    requires forall b :: Live(s, b) && b.order in dropped ==> Allowed(s, p, e, Left(b, reason))
    ensures Wrote(s, p, e, Drop(s, dropped, reason))
    ensures forall i :: |s.journal| <= i < |Drop(s, dropped, reason).journal| ==> Drop(s, dropped, reason).journal[i].Left?
    ensures Drop(s, dropped, reason).lastSend == s.lastSend
  {
    hide Allowed, Drop;
    DropJournal(s, dropped, reason);
  }

  lemma PushedOutAllowed(s: Sender, p: Policy, r: Request)
    requires Inv(s, p) && r.proactive
    ensures forall b :: Live(s, b) && b.order in PushedOut(s, r.peer) ==> Allowed(s, p, Enqueue(r), Left(b, Superseded))
  {
    hide Inv;
    LiveBound(s, p);
    forall b | Live(s, b) && b.order in PushedOut(s, r.peer)
      ensures Allowed(s, p, Enqueue(r), Left(b, Superseded))
    {
      var a := ActiveOf(s.active, r.peer).value;
      assert Live(s, a);
      if b.order != a.order {
        var x :| x in s.queue && x.peer == r.peer && x.batch == a.batch && x.order == b.order;
        assert Live(s, x);
      }
    }
  }

  lemma OutdatedAllowed(s: Sender, p: Policy, peer: string, batch: Key)
    requires Inv(s, p)
    ensures forall b :: Live(s, b) && b.order in Outdated(s, peer, batch) ==>
              Allowed(s, p, NewBatch(peer, batch), Left(b, Superseded))
  {
    hide Inv, StaleBatches;
    LiveBound(s, p);
    forall b | Live(s, b) && b.order in Outdated(s, peer, batch)
      ensures b.batch.Some?
    {
      var x :| Live(s, x) && x.batch.Some? && x.order == b.order;
    }
  }

  lemma RedundantAllowed(s: Sender, p: Policy, batch: Key)
    requires Inv(s, p)
    ensures forall b :: Live(s, b) && b.order in Redundant(s, batch) ==>
              Allowed(s, p, StoredBatch(batch), Left(b, Compacted))
  {
    hide Inv;
    LiveBound(s, p);
    forall b | Live(s, b) && b.order in Redundant(s, batch)
      ensures b.batch == Some(batch)
    {
      var x :| Live(s, x) && x.batch == Some(batch) && x.order == b.order;
    }
  }

  lemma QueueFrameWrites(s: Sender, p: Policy, r: Request)
    requires Inv(s, p)
    ensures Wrote(s, p, Enqueue(r), QueueFrame(s, p, r).sender)
    ensures Orderly(s, p) ==> Orderly(QueueFrame(s, p, r).sender, p)
  {
    hide Inv, Search, TakenIds, ValidPeer, PushedOut, Drop, Allowed, Orderly, FragmentFrame, Load;
    var t := QueueFrame(s, p, r).sender;
    if r.proactive && ValidPeer(r.peer) {
      PushedOutAllowed(s, p, r);
      DropWrites(s, p, Enqueue(r), PushedOut(s, r.peer), Superseded);
      DropOrderly(s, p, PushedOut(s, r.peer), Superseded);
      SameOrderly(Drop(s, PushedOut(s, r.peer), Superseded), p, t);
    } else {
      SameOrderly(s, p, t);
    }
  }

  lemma LeaveWrites(s: Sender, b: Burst, reason: Reason)
    ensures var t := Leave(s, b, reason);
            && s.journal <= t.journal && t.lastSend == s.lastSend
            && (forall i :: |s.journal| <= i < |t.journal| ==>
                  || t.journal[i] == Left(b, reason)
                  || (t.journal[i].Marked? && (t.journal[i].mark.MarkDelivered? <==> reason == Confirmed)))
  {
    hide Kept;
  }

  lemma PollBurstWrites(s: Sender, p: Policy, b: Burst, now: nat)
    requires Inv(s, p) && b in s.active
    ensures PollWrote(s, p, now, PollBurst(s, p, b, now))
    ensures Orderly(s, p) ==> Orderly(PollBurst(s, p, b, now), p)
  {
    hide Inv, Judge, Leave, MaySend, Orderly, Replaced, Upto;
    FlyingActive(s, p, b);
    VerdictOfFlying(b, p, now);
    LeaveWrites(s, b, Exhausted);
    var t, v := PollBurst(s, p, b, now), Judge(b, now);
    LeaveOrderly(s, p, b, Exhausted);
    if v.Try? && b.attempts < p.maxAttempts && MaySend(s, b.peer, p, now) {
      if Orderly(s, p) {
        TransmissionOrderly(s, p, Again(b, p, now), v.indices, now, t);
      }
    } else if !v.GiveUp? && !(v.Try? && b.attempts >= p.maxAttempts) {
      SameOrderly(s, p, t);
    }
  }

  lemma LaunchWrites(s: Sender, p: Policy, b: Burst, now: nat)
    requires Inv(s, p) && p.Valid() && b in s.queue
    ensures PollWrote(s, p, now, Launch(s, p, b, now))
    ensures Orderly(s, p) ==> Orderly(Launch(s, p, b, now), p)
  {
    hide Inv, MaySend, Orderly, Kept, ActiveOf;
    QueuedWhole(s, p, b);
    assert 0 in All(b);
    if Orderly(s, p) && ActiveOf(s.active, b.peer).None? && MaySend(s, b.peer, p, now) {
      TransmissionOrderly(s, p, First(b, p, now), All(b), now, Launch(s, p, b, now));
    }
  }

  lemma QueuedWhole(s: Sender, p: Policy, b: Burst)
    requires Inv(s, p) && b in s.queue
    ensures Whole(b)
  {
  }

  lemma {:induction false} PollActiveWrites(s: Sender, p: Policy, now: nat, n: nat)
    requires Inv(s, p) && p.Valid() && n <= |s.active|
    ensures PollWrote(s, p, now, PollActive(s, p, s.active, now, n))
    ensures Orderly(s, p) ==> Orderly(PollActive(s, p, s.active, now, n), p)
  {
    hide Inv, PollBurst, PollActive, Orderly, PollEntry;
    if n == 0 {
      PollActiveStart(s, p, now);
    } else {
      PollActiveWrites(s, p, now, n - 1);
      PollActiveKeepsInv(s, p, now, n - 1);
      PollActiveStep(s, p, s.active, now, n);
      var t := PollActive(s, p, s.active, now, n - 1);
      PollBurstWrites(t, p, s.active[n - 1], now);
      PollWroteTwice(s, p, now, t, PollBurst(t, p, s.active[n - 1], now));
    }
  }

  lemma PollWroteTwice(s: Sender, p: Policy, now: nat, t: Sender, u: Sender)
    requires PollWrote(s, p, now, t) && PollWrote(t, p, now, u)
    ensures PollWrote(s, p, now, u)
  {
    hide PollEntry;
    forall i | |s.journal| <= i < |u.journal|
      ensures PollEntry(p, now, u.journal[i])
    {
      if i < |t.journal| {
        assert u.journal[i] == t.journal[i];
      }
    }
  }

  lemma {:induction false} LaunchAllWrites(s: Sender, p: Policy, now: nat, n: nat)
    requires Inv(s, p) && p.Valid() && n <= |Candidates(s.queue)|
    ensures PollWrote(s, p, now, LaunchAll(s, p, Candidates(s.queue), now, n))
    ensures Orderly(s, p) ==> Orderly(LaunchAll(s, p, Candidates(s.queue), now, n), p)
  {
    hide Inv, Launch, LaunchAll, Candidates, Orderly, PollEntry;
    var c := Candidates(s.queue);
    if n == 0 {
      LaunchStart(s, p, c, now);
    } else {
      LaunchAllWrites(s, p, now, n - 1);
      LaunchAllKeepsInv(s, p, now, n - 1);
      LaunchStep(s, p, c, now, n);
      var t := LaunchAll(s, p, c, now, n - 1);
      LaunchWrites(t, p, c[n - 1], now);
      PollWroteTwice(s, p, now, t, Launch(t, p, c[n - 1], now));
    }
  }

  lemma PollWrites(s: Sender, p: Policy, now: nat)
    requires Inv(s, p) && p.Valid()
    ensures PollWrote(s, p, now, PollSender(s, p, now))
    ensures Orderly(s, p) ==> Orderly(PollSender(s, p, now), p)
  {
    hide Inv, PollActive, LaunchAll, Candidates, Orderly, PollEntry;
    PollActiveKeepsInv(s, p, now, |s.active|);
    PollActiveWrites(s, p, now, |s.active|);
    var t := PollActive(s, p, s.active, now, |s.active|);
    LaunchAllWrites(t, p, now, |Candidates(t.queue)|);
    PollWroteTwice(s, p, now, t, PollSender(s, p, now));
  }

  // Every event adds to the journal only what its kind allows: a burst is
  // confirmed only by an A2 naming it, given up only by a poll after its last
  // attempt, superseded or compacted only as part of a response batch; Core is
  // told of a delivery only by an A2 and of a failure only by a poll.
  lemma StepWrites(s: Sender, p: Policy, e: Event)
    requires Inv(s, p) && p.Valid()
    ensures Wrote(s, p, e, Step(s, p, e))
    ensures Orderly(s, p) ==> Orderly(Step(s, p, e), p)
  {
    hide Inv, QueueFrame, Drop, PollSender, Leave, InFlight, Outdated, Redundant, Wanted, Orderly, PollEntry, Replaced;
    var t := Step(s, p, e);
    match e
    case Enqueue(request) => QueueFrameWrites(s, p, request);
    case Acked(peer, id) => AckWrites(s, p, peer, id);
    case Nacked(peer, id, missing) => NackWrites(s, p, peer, id, missing);
    case NewBatch(peer, batch) =>
      OutdatedAllowed(s, p, peer, batch);
      DropWrites(s, p, e, Outdated(s, peer, batch), Superseded);
      DropOrderly(s, p, Outdated(s, peer, batch), Superseded);
    case StoredBatch(batch) =>
      RedundantAllowed(s, p, batch);
      DropWrites(s, p, e, Redundant(s, batch), Compacted);
      DropOrderly(s, p, Redundant(s, batch), Compacted);
    case Poll(now) => PollWrites(s, p, now);
  }

  lemma AckWrites(s: Sender, p: Policy, peer: string, id: string)
    ensures Wrote(s, p, Acked(peer, id), Acknowledge(s, peer, id))
    ensures Orderly(s, p) ==> Orderly(Acknowledge(s, peer, id), p)
  {
    hide InFlight, Leave, Orderly;
    InFlightIsActive(s, peer, id);
    var b := InFlight(s, peer, id);
    if b.Some? {
      LeaveWrites(s, b.value, Confirmed);
      LeaveOrderly(s, p, b.value, Confirmed);
    }
  }

  lemma NackWrites(s: Sender, p: Policy, peer: string, id: string, missing: set<nat>)
    ensures Wrote(s, p, Nacked(peer, id, missing), Repair(s, peer, id, missing))
    ensures Orderly(s, p) ==> Orderly(Repair(s, peer, id, missing), p)
  {
    hide InFlight, Orderly, Wanted, Replaced;
    SameOrderly(s, p, Repair(s, peer, id, missing));
  }

  // Over every run, two transmissions to one peer are never closer than the
  // minimum interval, whatever the clock did, and Core is told of a delivery
  // exactly when the burst that carried it is confirmed or given up.
  lemma {:induction false} RunOrderly(p: Policy, events: seq<Event>, n: nat)
    requires p.Valid() && n <= |events|
    ensures Orderly(After(p, events, n), p)
  {
    hide Inv, Step;
    if n == 0 {
    } else {
      RunKeepsInv(p, events, n - 1);
      RunOrderly(p, events, n - 1);
      StepWrites(After(p, events, n - 1), p, events[n - 1]);
    }
  }

  // A burst without a response batch, as every proactive message is, leaves
  // only by an A2 or by exhausting its attempts.
  ghost predicate FarewellsJustified(s: Sender, p: Policy) {
    forall i :: 0 <= i < |s.journal| && s.journal[i].Left? ==>
      && (s.journal[i].reason == Superseded || s.journal[i].reason == Compacted ==> s.journal[i].burst.batch.Some?)
      && (s.journal[i].reason == Exhausted ==> s.journal[i].burst.attempts == p.maxAttempts)
  }

  lemma StepJustified(s: Sender, p: Policy, e: Event)
    requires Inv(s, p) && p.Valid() && FarewellsJustified(s, p)
    ensures FarewellsJustified(Step(s, p, e), p)
  {
    hide Inv, Step;
    StepWrites(s, p, e);
    var t := Step(s, p, e);
    forall i | 0 <= i < |t.journal| && t.journal[i].Left?
      ensures t.journal[i].reason == Superseded || t.journal[i].reason == Compacted ==> t.journal[i].burst.batch.Some?
      ensures t.journal[i].reason == Exhausted ==> t.journal[i].burst.attempts == p.maxAttempts
    {
      if i < |s.journal| {
        assert t.journal[i] == s.journal[i];
      } else {
        assert Allowed(s, p, e, t.journal[i]);
      }
    }
  }

  lemma {:induction false} RunJustified(p: Policy, events: seq<Event>, n: nat)
    requires p.Valid() && n <= |events|
    ensures FarewellsJustified(After(p, events, n), p)
  {
    hide Inv, Step, FarewellsJustified;
    if n == 0 {
      NothingToJustify(p);
    } else {
      RunKeepsInv(p, events, n - 1);
      RunJustified(p, events, n - 1);
      StepJustified(After(p, events, n - 1), p, events[n - 1]);
    }
  }

  lemma NothingToJustify(p: Policy)
    ensures FarewellsJustified(IDLE, p)
  {
  }
}
