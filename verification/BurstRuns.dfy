// Runs of the transmit side: how often, how closely and with what outcome a
// burst is sent.
module BurstRuns {
  import opened Prelude
  import opened Carriage
  import opened Reassembly
  import opened Burst
  import opened BurstProofs

  datatype Event =
    | Enqueue(request: Request)
    | Acked(peer: string, id: string)
    | Nacked(peer: string, id: string, missing: set<nat>)
    | NewBatch(peer: string, batch: Key)
    | StoredBatch(batch: Key)
    | Poll(now: nat)

  function Acknowledge(s: Sender, peer: string, id: string): Sender {
    match InFlight(s, peer, id)
    case None => s
    case Some(b) => Leave(s, b, Confirmed)
  }

  function Repair(s: Sender, peer: string, id: string, missing: set<nat>): Sender {
    match InFlight(s, peer, id)
    case None => s
    case Some(b) => if Wanted(b, missing) == {} then s else Amend(s, Repairing(b, Wanted(b, missing)))
  }

  function Step(s: Sender, p: Policy, e: Event): Sender {
    match e
    case Enqueue(request) => QueueFrame(s, p, request).sender
    case Acked(peer, id) => Acknowledge(s, peer, id)
    case Nacked(peer, id, missing) => Repair(s, peer, id, missing)
    case NewBatch(peer, batch) => SupersedeStale(s, peer, batch)
    case StoredBatch(batch) => CompactBatch(s, batch)
    case Poll(now) => PollSender(s, p, now)
  }

  function After(p: Policy, events: seq<Event>, n: nat): Sender
    requires n <= |events|
  {
    if n == 0 then IDLE else Step(After(p, events, n - 1), p, events[n - 1])
  }

  lemma StepKeepsInv(s: Sender, p: Policy, e: Event)
    requires Inv(s, p) && p.Valid()
    ensures Inv(Step(s, p, e), p)
  {
    hide Inv, QueueFrame, Drop, PollSender, Leave, Amend, InFlight, Outdated, Redundant, Wanted;
    match e
    case Enqueue(request) => QueueFrameKeepsInv(s, p, request);
    case Acked(peer, id) =>
      var b := InFlight(s, peer, id);
      if b.Some? {
        LeaveKeepsInv(s, p, b.value, Confirmed);
      }
    case Nacked(peer, id, missing) => RepairKeepsInv(s, p, peer, id, missing);
    case NewBatch(peer, batch) => DropKeepsInv(s, p, Outdated(s, peer, batch), Superseded);
    case StoredBatch(batch) => DropKeepsInv(s, p, Redundant(s, batch), Compacted);
    case Poll(now) => PollKeepsInv(s, p, now);
  }

  lemma RepairKeepsInv(s: Sender, p: Policy, peer: string, id: string, missing: set<nat>)
    requires Inv(s, p)
    ensures Inv(Repair(s, peer, id, missing), p)
  {
    hide Inv, Amend, Wanted;
    var b := InFlight(s, peer, id);
    if b.Some? && Wanted(b.value, missing) != {} {
      FlyingActive(s, p, b.value);
      WantedInRange(b.value, missing);
      AmendKeepsInv(s, p, b.value, Repairing(b.value, Wanted(b.value, missing)));
    }
  }

  lemma WantedInRange(b: Burst, missing: set<nat>)
    ensures Wanted(b, missing) <= All(b)
    ensures missing <= All(b) ==> Wanted(b, missing) == missing
  {
  }

  // Distinct ids per peer, bounded load, requests that can be met and attempts
  // within bounds: in every reachable state.
  lemma {:induction false} RunKeepsInv(p: Policy, events: seq<Event>, n: nat)
    requires p.Valid() && n <= |events|
    ensures Inv(After(p, events, n), p)
  {
    hide Inv, Step;
    if n == 0 {
      IdleInv(p);
    } else {
      RunKeepsInv(p, events, n - 1);
      StepKeepsInv(After(p, events, n - 1), p, events[n - 1]);
    }
  }

  // --------------------------------------------------------------- allocation

  lemma {:induction false} SearchFails(next: nat, taken: set<string>, tries: nat, k: nat)
    requires Search(next, taken, tries).id.None? && k < tries
    ensures TransactionText((next + k) % 256) in taken
    decreases tries
  {
    hide TransactionText;
    if k > 0 {
      SearchFails(next % 256 + 1, taken, tries - 1, k - 1);
      CyclicSum(next, k);
    }
  }

  lemma CyclicSum(next: nat, k: nat)
    ensures (next % 256 + k) % 256 == (next + k) % 256
  {
  }

  // The cyclic search fails exactly when all 256 ids are in use.
  lemma SearchIsComplete(next: nat, taken: set<string>)
    ensures Search(next, taken, 256).id.None? <==> forall v: byte :: TransactionText(v) in taken
  {
    hide TransactionText, Search;
    if Search(next, taken, 256).id.None? {
      forall v: byte
        ensures TransactionText(v) in taken
      {
        var k: nat := (v - next % 256) % 256;
        SearchFails(next, taken, 256, k);
        CyclicSum(next, k);
        assert (next % 256 + k) % 256 == v;
      }
    }
  }

  function FirstIds(n: nat): set<string>
    requires n <= 256
  {
    if n == 0 then {} else FirstIds(n - 1) + {TransactionText((n - 1) as byte)}
  }

  lemma {:induction false} FirstIdsSize(n: nat)
    requires n <= 256
    ensures |FirstIds(n)| == n
    ensures forall v: byte :: TransactionText(v) in FirstIds(n) <==> v < n
  {
    hide TransactionText, TransactionByte, FirstIds;
    if n == 0 {
      NoIds();
    } else {
      FirstIdsSize(n - 1);
      OneMoreId(n);
      forall v: byte
        ensures TransactionText(v) in FirstIds(n) <==> v < n
      {
        TransactionRoundTrip(v);
        TransactionRoundTrip((n - 1) as byte);
      }
    }
  }

  lemma NoIds()
    ensures FirstIds(0) == {}
  {
  }

  lemma OneMoreId(n: nat)
    requires 0 < n <= 256
    ensures FirstIds(n) == FirstIds(n - 1) + {TransactionText((n - 1) as byte)}
  {
    hide TransactionText;
  }

  // With fewer than 256 ids live to a peer an id is always found.
  lemma AllocatorSucceeds(next: nat, taken: set<string>)
    requires |taken| < 256
    ensures Search(next, taken, 256).id.Some?
  {
    if Search(next, taken, 256).id.None? {
      SearchIsComplete(next, taken);
      FirstIdsSize(256);
      AllTaken(taken, 256);
      SubsetSize(FirstIds(256), taken);
    }
  }

  lemma {:induction false} AllTaken(taken: set<string>, n: nat)
    requires n <= 256 && forall v: byte :: TransactionText(v) in taken
    ensures FirstIds(n) <= taken
  {
    if n == 0 {
    } else {
      AllTaken(taken, n - 1);
    }
  }

  // ------------------------------------------------------------- the journal

  function SentOne(e: Entry, order: nat): nat {
    if e.Transmitted? && e.burst.order == order then 1 else 0
  }

  function LeftOne(e: Entry, order: nat): nat {
    if e.Left? && e.burst.order == order then 1 else 0
  }

  // How often burst `order` has been transmitted, and has left.
  function Sends(journal: seq<Entry>, order: nat): nat {
    if journal == [] then 0
    else Sends(journal[..|journal| - 1], order) + SentOne(journal[|journal| - 1], order)
  }

  function Exits(journal: seq<Entry>, order: nat): nat {
    if journal == [] then 0
    else Exits(journal[..|journal| - 1], order) + LeftOne(journal[|journal| - 1], order)
  }

  lemma CountAppend(journal: seq<Entry>, e: Entry, order: nat)
    ensures Sends(journal + [e], order) == Sends(journal, order) + SentOne(e, order)
    ensures Exits(journal + [e], order) == Exits(journal, order) + LeftOne(e, order)
  {
    hide SentOne, LeftOne;
    assert (journal + [e])[..|journal|] == journal;
  }

  lemma {:induction false} CountConcat(a: seq<Entry>, b: seq<Entry>, order: nat)
    ensures Sends(a + b, order) == Sends(a, order) + Sends(b, order)
    ensures Exits(a + b, order) == Exits(a, order) + Exits(b, order)
  {
    hide SentOne, LeftOne;
    if b == [] {
      assert a + b == a;
    } else {
      CountConcat(a, b[..|b| - 1], order);
      assert a + b == (a + b[..|b| - 1]) + [b[|b| - 1]];
      CountAppend(a + b[..|b| - 1], b[|b| - 1], order);
    }
  }

  ghost predicate Holds(bursts: seq<Burst>, order: nat) {
    exists b :: b in bursts && b.order == order
  }

  // Dropping writes one farewell for each burst dropped.
  lemma {:induction false} DeparturesCount(bursts: seq<Burst>, dropped: set<nat>, reason: Reason, order: nat)
    requires forall i, j :: 0 <= i < j < |bursts| ==> bursts[i].order != bursts[j].order
    ensures Sends(Departures(bursts, dropped, reason), order) == 0
    ensures Exits(Departures(bursts, dropped, reason), order) == if order in dropped && Holds(bursts, order) then 1 else 0
  {
    hide Sends, Exits, Departures;
    if bursts == [] {
      NoDepartures(dropped, reason, order);
    } else {
      var prefix, last := bursts[..|bursts| - 1], bursts[|bursts| - 1];
      DeparturesCount(prefix, dropped, reason, order);
      DeparturesStep(bursts, dropped, reason);
      CountAppend(Departures(prefix, dropped, reason), Left(last, reason), order);
      assert last in bursts;
      if Holds(prefix, order) {
        var b :| b in prefix && b.order == order;
        assert b in bursts;
      }
      if Holds(bursts, order) && last.order != order {
        var b :| b in bursts && b.order == order;
        assert b in prefix;
      }
    }
  }

  lemma NoDepartures(dropped: set<nat>, reason: Reason, order: nat)
    ensures Departures([], dropped, reason) == [] && Sends([], order) == 0 && Exits([], order) == 0
  {
  }

  lemma DeparturesStep(bursts: seq<Burst>, dropped: set<nat>, reason: Reason)
    requires bursts != []
    ensures var prefix, last := bursts[..|bursts| - 1], bursts[|bursts| - 1];
            Departures(bursts, dropped, reason)
            == if last.order in dropped then Departures(prefix, dropped, reason) + [Left(last, reason)]
               else Departures(prefix, dropped, reason)
  {
  }

  // ------------------------------------------------------- one burst's account

  ghost predicate LiveOrder(s: Sender, order: nat) {
    exists b :: Live(s, b) && b.order == order
  }

  // What the journal says of burst `order` agrees with where it stands.
  ghost predicate Accounted(s: Sender, p: Policy, order: nat) {
    && Sends(s.journal, order) <= p.maxAttempts
    && (order >= s.nextOrder ==> Sends(s.journal, order) == 0)
    && Exits(s.journal, order) == (if order < s.nextOrder && !LiveOrder(s, order) then 1 else 0)
    && (forall b :: Live(s, b) && b.order == order ==> Sends(s.journal, order) == b.attempts)
  }

  lemma DropAccounts(s: Sender, p: Policy, dropped: set<nat>, reason: Reason, order: nat)
    requires Inv(s, p) && Accounted(s, p, order)
    ensures Accounted(Drop(s, dropped, reason), p, order)
  {
    hide Departures, Sends, Exits, Inv, Kept;
    DropCounts(s, p, dropped, reason, order);
    LiveBound(s, p);
    DropLives(s, dropped, reason, order);
  }

  lemma LiveBound(s: Sender, p: Policy)
    requires Inv(s, p)
    ensures forall b :: Live(s, b) ==> b.order < s.nextOrder
    ensures forall a, b :: Live(s, a) && Live(s, b) && a.order == b.order ==> a == b
  {
  }

  lemma DropLives(s: Sender, dropped: set<nat>, reason: Reason, order: nat)
    ensures forall b :: Live(Drop(s, dropped, reason), b) <==> Live(s, b) && b.order !in dropped
    ensures LiveOrder(Drop(s, dropped, reason), order) <==> LiveOrder(s, order) && order !in dropped
  {
    hide Departures, Kept;
    var t := Drop(s, dropped, reason);
    if LiveOrder(s, order) && order !in dropped {
      var b :| Live(s, b) && b.order == order;
      assert Live(t, b);
    }
  }

  lemma DropCounts(s: Sender, p: Policy, dropped: set<nat>, reason: Reason, order: nat)
    requires Inv(s, p)
    ensures var t := Drop(s, dropped, reason);
            && Sends(t.journal, order) == Sends(s.journal, order)
            && Exits(t.journal, order) == Exits(s.journal, order) + if order in dropped && LiveOrder(s, order) then 1 else 0
  {
    hide Departures, Sends, Exits, Kept, Flying, Unsent, Load;
    var a, q := Departures(s.active, dropped, reason), Departures(s.queue, dropped, reason);
    DeparturesCount(s.active, dropped, reason, order);
    DeparturesCount(s.queue, dropped, reason, order);
    CountConcat(s.journal, a, order);
    CountConcat(s.journal + a, q, order);
    assert !(Holds(s.active, order) && Holds(s.queue, order));
    assert LiveOrder(s, order) <==> Holds(s.active, order) || Holds(s.queue, order);
  }

  lemma LeaveAccounts(s: Sender, p: Policy, b: Burst, reason: Reason, order: nat)
    requires Inv(s, p) && b in s.active && Accounted(s, p, order)
    ensures Accounted(Leave(s, b, reason), p, order)
  {
    hide Sends, Exits, Inv, Kept;
    var t := Leave(s, b, reason);
    LeaveCounts(s, b, reason, order);
    LiveBound(s, p);
    LeaveLives(s, p, b, reason, order);
  }

  lemma LeaveCounts(s: Sender, b: Burst, reason: Reason, order: nat)
    ensures var t := Leave(s, b, reason);
            && Sends(t.journal, order) == Sends(s.journal, order)
            && Exits(t.journal, order) == Exits(s.journal, order) + if order == b.order then 1 else 0
  {
    hide Sends, Exits, Kept;
    var left := s.journal + [Left(b, reason)];
    CountAppend(s.journal, Left(b, reason), order);
    match b.delivery
    case None => assert left + [] == left;
    case Some(d) => CountAppend(left, Marked(if reason == Confirmed then MarkDelivered(d) else MarkFailed(d)), order);
  }

  lemma LeaveLives(s: Sender, p: Policy, b: Burst, reason: Reason, order: nat)
    requires Inv(s, p) && b in s.active
    ensures forall x :: Live(Leave(s, b, reason), x) <==> Live(s, x) && x.order != b.order
    ensures LiveOrder(Leave(s, b, reason), order) <==> LiveOrder(s, order) && order != b.order
  {
    hide Kept, Flying, Unsent, Load, InOrder, Solo;
    var t := Leave(s, b, reason);
    if LiveOrder(s, order) && order != b.order {
      var x :| Live(s, x) && x.order == order;
      assert Live(t, x);
    }
  }

  // A burst changed in place, with or without one transmission.
  lemma AmendAccounts(s: Sender, p: Policy, b: Burst, c: Burst, order: nat)
    requires Inv(s, p) && b in s.active && Restated(b, c) && c.attempts == b.attempts && Accounted(s, p, order)
    ensures Accounted(Amend(s, c), p, order)
  {
    hide Sends, Exits, Inv, Replaced;
    AmendLives(s, p, b, c, order);
    LiveBound(s, p);
  }

  lemma AmendLives(s: Sender, p: Policy, b: Burst, c: Burst, order: nat)
    requires Inv(s, p) && b in s.active && Restated(b, c)
    ensures forall x :: Live(Amend(s, c), x) <==> x == c || (Live(s, x) && x.order != b.order)
    ensures LiveOrder(Amend(s, c), order) <==> LiveOrder(s, order)
  {
    hide Replaced, Flying, Unsent, Load, InOrder, Solo;
    ReplacedMembers(s.active, b, c);
    var t := Amend(s, c);
    assert Live(t, c) && Live(s, b);
    if LiveOrder(s, order) && order != b.order {
      var x :| Live(s, x) && x.order == order;
      assert Live(t, x);
    }
  }

  lemma ResendAccounts(s: Sender, p: Policy, b: Burst, c: Burst, indices: set<nat>, now: nat, t: Sender, order: nat)
    requires Inv(s, p) && b in s.active && Restated(b, c) && c.attempts == b.attempts + 1 <= p.maxAttempts
    requires Accounted(s, p, order)
    requires t.queue == s.queue && t.active == Amend(s, c).active && t.nextOrder == s.nextOrder
    requires t.journal == s.journal + [Transmitted(c, indices, now)]
    ensures Accounted(t, p, order)
  {
    hide Sends, Exits, Inv, Replaced;
    AmendLives(s, p, b, c, order);
    SameLives(Amend(s, c), t, order);
    CountAppend(s.journal, Transmitted(c, indices, now), order);
    LiveBound(s, p);
    assert Live(s, b);
  }

  lemma SameLives(s: Sender, t: Sender, order: nat)
    requires t.queue == s.queue && t.active == s.active
    ensures forall x :: Live(t, x) <==> Live(s, x)
    ensures LiveOrder(t, order) <==> LiveOrder(s, order)
  {
  }

  lemma PollBurstAccounts(s: Sender, p: Policy, b: Burst, now: nat, order: nat)
    requires Inv(s, p) && b in s.active && Accounted(s, p, order)
    ensures Accounted(PollBurst(s, p, b, now), p, order)
  {
    hide Inv, Judge, Leave, MaySend, Accounted, Replaced;
    var v := Judge(b, now);
    LeaveAccounts(s, p, b, Exhausted, order);
    if v.Try? && b.attempts < p.maxAttempts {
      if !MaySend(s, b.peer, p, now) {
        AmendAccounts(s, p, b, b.(requested := Some(v.indices)), order);
      } else {
        ResendAccounts(s, p, b, Again(b, p, now), v.indices, now, PollBurst(s, p, b, now), order);
      }
    }
  }

  lemma LaunchAccounts(s: Sender, p: Policy, b: Burst, now: nat, order: nat)
    requires Inv(s, p) && p.Valid() && b in s.queue && Accounted(s, p, order)
    ensures Accounted(Launch(s, p, b, now), p, order)
  {
    hide Inv, MaySend, Kept, Sends, Exits, ActiveOf;
    var t := Launch(s, p, b, now);
    if ActiveOf(s.active, b.peer).None? && MaySend(s, b.peer, p, now) {
      CountAppend(s.journal, Transmitted(First(b, p, now), All(b), now), order);
      LiveBound(s, p);
      LaunchLives(s, p, b, First(b, p, now), t, order);
      NeverSent(s, p, b);
      assert Live(s, b);
    }
  }

  lemma NeverSent(s: Sender, p: Policy, b: Burst)
    requires Inv(s, p) && b in s.queue
    ensures b.attempts == 0
  {
  }

  lemma LaunchLives(s: Sender, p: Policy, b: Burst, c: Burst, t: Sender, order: nat)
    requires Inv(s, p) && b in s.queue && Restated(b, c)
    requires t.queue == Kept(s.queue, {b.order}) && t.active == s.active + [c]
    ensures forall x :: Live(t, x) <==> x == c || (Live(s, x) && x.order != b.order)
    ensures LiveOrder(t, order) <==> LiveOrder(s, order)
  {
    hide Kept, Flying, Unsent, Load, InOrder, Solo;
    assert Live(t, c) && Live(s, b);
    if LiveOrder(s, order) && order != b.order {
      var x :| Live(s, x) && x.order == order;
      assert Live(t, x);
    }
  }

  lemma AdmitAccounts(s: Sender, p: Policy, r: Request, id: string, order: nat)
    requires Inv(s, p) && Accounted(s, p, order)
    ensures Accounted(Admit(s, p, r, id).sender, p, order)
  {
    hide Inv, FragmentFrame, Load, Sends, Exits;
    LiveBound(s, p);
    var q := Admit(s, p, r, id);
    if q.result.Ok? {
      var b := q.sender.queue[|s.queue|];
      assert q.sender.queue == s.queue + [b];
      assert Live(q.sender, b);
      assert forall x :: Live(q.sender, x) <==> x == b || Live(s, x);
      if LiveOrder(s, order) {
        var x :| Live(s, x) && x.order == order;
        assert Live(q.sender, x);
      }
    }
  }

  lemma QueueFrameAccounts(s: Sender, p: Policy, r: Request, order: nat)
    requires Inv(s, p) && Accounted(s, p, order)
    ensures Accounted(QueueFrame(s, p, r).sender, p, order)
  {
    hide Inv, Admit, Search, TakenIds, ValidPeer, PushedOut, Drop, Accounted;
    var cleared := if r.proactive then Drop(s, PushedOut(s, r.peer), Superseded) else s;
    DropKeepsInv(s, p, PushedOut(s, r.peer), Superseded);
    DropAccounts(s, p, PushedOut(s, r.peer), Superseded, order);
    var found := Search(NextId(cleared, r.peer), TakenIds(cleared, r.peer), 256);
    var counted := cleared.(nextId := cleared.nextId[r.peer := found.next]);
    SameLiveInv(cleared, p, counted);
    SameAccount(cleared, counted, p, order);
    if found.id.Some? {
      AdmitAccounts(counted, p, r, found.id.value, order);
    }
  }

  lemma SameAccount(s: Sender, t: Sender, p: Policy, order: nat)
    requires t.queue == s.queue && t.active == s.active && t.nextOrder == s.nextOrder && t.journal == s.journal
    requires Accounted(s, p, order)
    ensures Accounted(t, p, order)
  {
    hide Sends, Exits;
    SameLives(s, t, order);
  }

  lemma {:induction false} PollActiveAccounts(s: Sender, p: Policy, now: nat, n: nat, order: nat)
    requires Inv(s, p) && p.Valid() && n <= |s.active| && Accounted(s, p, order)
    ensures Accounted(PollActive(s, p, s.active, now, n), p, order)
  {
    hide Inv, PollBurst, PollActive, Accounted;
    if n == 0 {
      PollActiveStart(s, p, now);
    } else {
      PollActiveAccounts(s, p, now, n - 1, order);
      PollActiveKeepsInv(s, p, now, n - 1);
      PollActiveStep(s, p, s.active, now, n);
      PollBurstAccounts(PollActive(s, p, s.active, now, n - 1), p, s.active[n - 1], now, order);
    }
  }

  lemma {:induction false} LaunchAllAccounts(s: Sender, p: Policy, now: nat, n: nat, order: nat)
    requires Inv(s, p) && p.Valid() && n <= |Candidates(s.queue)| && Accounted(s, p, order)
    ensures Accounted(LaunchAll(s, p, Candidates(s.queue), now, n), p, order)
  {
    hide Inv, Launch, LaunchAll, Candidates, Accounted;
    var c := Candidates(s.queue);
    if n == 0 {
      LaunchStart(s, p, c, now);
    } else {
      LaunchAllAccounts(s, p, now, n - 1, order);
      LaunchAllKeepsInv(s, p, now, n - 1);
      LaunchStep(s, p, c, now, n);
      LaunchAccounts(LaunchAll(s, p, c, now, n - 1), p, c[n - 1], now, order);
    }
  }

  lemma PollAccounts(s: Sender, p: Policy, now: nat, order: nat)
    requires Inv(s, p) && p.Valid() && Accounted(s, p, order)
    ensures Accounted(PollSender(s, p, now), p, order)
  {
    hide Inv, PollActive, LaunchAll, Candidates, Accounted;
    PollActiveKeepsInv(s, p, now, |s.active|);
    PollActiveAccounts(s, p, now, |s.active|, order);
    var t := PollActive(s, p, s.active, now, |s.active|);
    LaunchAllAccounts(t, p, now, |Candidates(t.queue)|, order);
  }

  lemma StepAccounts(s: Sender, p: Policy, e: Event, order: nat)
    requires Inv(s, p) && p.Valid() && Accounted(s, p, order)
    ensures Accounted(Step(s, p, e), p, order)
  {
    hide Inv, QueueFrame, Drop, PollSender, Leave, Amend, InFlight, Outdated, Redundant, Wanted, Accounted;
    match e
    case Enqueue(request) => QueueFrameAccounts(s, p, request, order);
    case Acked(peer, id) =>
      var b := InFlight(s, peer, id);
      InFlightIsActive(s, peer, id);
      if b.Some? {
        LeaveAccounts(s, p, b.value, Confirmed, order);
      }
    case Nacked(peer, id, missing) =>
      var b := InFlight(s, peer, id);
      InFlightIsActive(s, peer, id);
      if b.Some? && Wanted(b.value, missing) != {} {
        AmendAccounts(s, p, b.value, Repairing(b.value, Wanted(b.value, missing)), order);
      }
    case NewBatch(peer, batch) => DropAccounts(s, p, Outdated(s, peer, batch), Superseded, order);
    case StoredBatch(batch) => DropAccounts(s, p, Redundant(s, batch), Compacted, order);
    case Poll(now) => PollAccounts(s, p, now, order);
  }

  lemma InFlightIsActive(s: Sender, peer: string, id: string)
    ensures var b := InFlight(s, peer, id);
            b.Some? ==> b.value in s.active && b.value.peer == peer && b.value.transactionId == id
  {
  }

  // In every reachable state each burst ever queued is either live, never
  // having left and sent exactly `attempts` times, or gone, having left exactly
  // once; and none was sent more than maxAttempts times.
  lemma {:induction false} RunAccounts(p: Policy, events: seq<Event>, n: nat, order: nat)
    requires p.Valid() && n <= |events|
    ensures Accounted(After(p, events, n), p, order)
  {
    hide Inv, Step;
    if n == 0 {
    } else {
      RunKeepsInv(p, events, n - 1);
      RunAccounts(p, events, n - 1, order);
      StepAccounts(After(p, events, n - 1), p, events[n - 1], order);
    }
  }
}
