// What every step of the transmit side keeps.
module BurstProofs {
  import opened Prelude
  import opened Base36
  import opened Carriage
  import opened Reassembly
  import opened Burst

  // ------------------------------------------------------------ the invariant

  predicate Whole(b: Burst) {
    1 <= |b.fragments| <= MAX_FRAGMENTS
  }

  predicate Unsent(b: Burst) {
    Whole(b) && b.attempts == 0 && b.deadline == 0 && b.requested == None && !b.repairActive && b.repairIndices == None
  }

  predicate GoodIndices(b: Burst, indices: Option<set<nat>>) {
    indices.Some? ==> indices.value != {} && indices.value <= All(b)
  }

  predicate Flying(b: Burst, p: Policy) {
    && Whole(b) && 1 <= b.attempts <= p.maxAttempts && b.deadline > 0
    && GoodIndices(b, b.requested) && GoodIndices(b, b.repairIndices)
    && (b.repairActive <==> b.repairIndices.Some?)
  }

  ghost predicate Live(s: Sender, b: Burst) {
    b in s.active || b in s.queue
  }

  ghost predicate InOrder(queue: seq<Burst>) {
    forall i, j :: 0 <= i < j < |queue| ==> queue[i].order < queue[j].order
  }

  ghost predicate Solo(active: seq<Burst>) {
    forall i, j :: 0 <= i < j < |active| ==> active[i].peer != active[j].peer && active[i].order != active[j].order
  }

  ghost predicate Apart(active: seq<Burst>, queue: seq<Burst>) {
    forall a, q :: a in active && q in queue ==> a.order != q.order
  }

  // No two live bursts to one peer share a transaction id.
  ghost predicate IdsDistinct(s: Sender) {
    forall a, b :: Live(s, a) && Live(s, b) && a.peer == b.peer && a.transactionId == b.transactionId ==> a.order == b.order
  }

  ghost predicate Inv(s: Sender, p: Policy) {
    && InOrder(s.queue) && Solo(s.active) && Apart(s.active, s.queue)
    && IdsDistinct(s)
    && Load(s.active) + Load(s.queue) <= p.queueCapacity
    && (forall b :: b in s.queue ==> Unsent(b))
    && (forall b :: b in s.active ==> Flying(b, p))
    && (forall b :: Live(s, b) ==> b.order < s.nextOrder && b.priority <= 1)
  }

  lemma IdleInv(p: Policy)
    ensures Inv(IDLE, p)
  {
  }

  // -------------------------------------------------------- sequence lemmas

  lemma {:induction false} KeptOrdered(bursts: seq<Burst>, dropped: set<nat>)
    requires InOrder(bursts)
    ensures InOrder(Kept(bursts, dropped))
  {
    if bursts == [] {
    } else {
      var prefix, last := bursts[..|bursts| - 1], bursts[|bursts| - 1];
      KeptOrdered(prefix, dropped);
      var r := Kept(prefix, dropped);
      forall i | 0 <= i < |r|
        ensures r[i].order < last.order
      {
        assert r[i] in r;
      }
    }
  }

  lemma {:induction false} KeptSolo(bursts: seq<Burst>, dropped: set<nat>)
    requires Solo(bursts)
    ensures Solo(Kept(bursts, dropped))
  {
    if bursts == [] {
    } else {
      var prefix, last := bursts[..|bursts| - 1], bursts[|bursts| - 1];
      KeptSolo(prefix, dropped);
      var r := Kept(prefix, dropped);
      forall i | 0 <= i < |r|
        ensures r[i].peer != last.peer && r[i].order != last.order
      {
        assert r[i] in r;
      }
    }
  }

  lemma KeptStep(bursts: seq<Burst>, dropped: set<nat>)
    requires bursts != []
    ensures var prefix, last := bursts[..|bursts| - 1], bursts[|bursts| - 1];
            Kept(bursts, dropped) == if last.order in dropped then Kept(prefix, dropped) else Kept(prefix, dropped) + [last]
  {
  }

  lemma LoadStep(bursts: seq<Burst>)
    requires bursts != []
    ensures Load(bursts) == Load(bursts[..|bursts| - 1]) + |bursts[|bursts| - 1].fragments|
  {
  }

  lemma KeptOfNone(dropped: set<nat>)
    ensures Kept([], dropped) == [] && Load([]) == 0
  {
  }

  lemma {:induction false} KeptLoad(bursts: seq<Burst>, dropped: set<nat>)
    ensures Load(Kept(bursts, dropped)) <= Load(bursts)
  {
    hide Kept, Load;
    if bursts == [] {
      KeptOfNone(dropped);
    } else {
      var prefix, last := bursts[..|bursts| - 1], bursts[|bursts| - 1];
      KeptStep(bursts, dropped);
      LoadStep(bursts);
      KeptLoad(prefix, dropped);
      LoadAppend(Kept(prefix, dropped), last);
    }
  }

  lemma LoadAppend(bursts: seq<Burst>, b: Burst)
    ensures Load(bursts + [b]) == Load(bursts) + |b.fragments|
  {
    assert (bursts + [b])[..|bursts|] == bursts;
  }

  lemma {:induction false} KeptNothing(bursts: seq<Burst>, dropped: set<nat>)
    requires forall b :: b in bursts ==> b.order !in dropped
    ensures Kept(bursts, dropped) == bursts
  {
    hide Kept;
    if bursts == [] {
      KeptOfNone(dropped);
    } else {
      KeptStep(bursts, dropped);
      KeptNothing(bursts[..|bursts| - 1], dropped);
      assert bursts[|bursts| - 1] in bursts;
    }
  }

  // Taking one burst out of an ordered queue frees exactly its fragments.
  lemma {:induction false} KeptLoadOne(bursts: seq<Burst>, b: Burst)
    requires InOrder(bursts) && b in bursts
    ensures Load(Kept(bursts, {b.order})) + |b.fragments| == Load(bursts)
  {
    hide Kept, Load;
    var prefix, last := bursts[..|bursts| - 1], bursts[|bursts| - 1];
    KeptStep(bursts, {b.order});
    LoadStep(bursts);
    if b == last {
      KeptNothing(prefix, {b.order});
    } else {
      assert b in prefix;
      KeptLoadOne(prefix, b);
      LoadAppend(Kept(prefix, {b.order}), last);
    }
  }

  lemma {:induction false} ReplacedLoad(bursts: seq<Burst>, b: Burst)
    requires forall x :: x in bursts && x.order == b.order ==> |x.fragments| == |b.fragments|
    ensures Load(Replaced(bursts, b)) == Load(bursts)
  {
    if bursts == [] {
    } else {
      var prefix, last := bursts[..|bursts| - 1], bursts[|bursts| - 1];
      ReplacedLoad(prefix, b);
      assert last in bursts;
      assert Replaced(bursts, b) == Replaced(prefix, b) + [if last.order == b.order then b else last];
      LoadAppend(Replaced(prefix, b), if last.order == b.order then b else last);
    }
  }

  lemma ReplacedMembers(bursts: seq<Burst>, old_: Burst, b: Burst)
    requires Solo(bursts) && old_ in bursts && old_.order == b.order
    ensures forall x :: x in Replaced(bursts, b) <==> x == b || (x in bursts && x.order != b.order)
  {
    var r := Replaced(bursts, b);
    forall x | x in r
      ensures x == b || (x in bursts && x.order != b.order)
    {
      var i :| 0 <= i < |r| && r[i] == x;
    }
    forall x | x in bursts && x.order != b.order
      ensures x in r
    {
      var i :| 0 <= i < |bursts| && bursts[i] == x;
      assert r[i] == x;
    }
    var i :| 0 <= i < |bursts| && bursts[i] == old_;
    assert r[i] == b;
  }

  // Live bursts are identified by their order number.
  lemma SameOrder(s: Sender, p: Policy, a: Burst, b: Burst)
    requires Inv(s, p) && Live(s, a) && Live(s, b) && a.order == b.order
    ensures a == b
  {
  }

  // ------------------------------------------------------------------- moves

  // Fewer bursts, nothing else: what dropping and leaving have in common.
  lemma ThinnedInv(s: Sender, p: Policy, dropped: set<nat>, kept: set<nat>, t: Sender)
    requires Inv(s, p) && t.nextOrder == s.nextOrder
    requires t.queue == Kept(s.queue, dropped) && t.active == Kept(s.active, kept)
    ensures Inv(t, p)
  {
    hide Unsent, Flying, Kept, InOrder, Solo, Load;
    KeptOrdered(s.queue, dropped);
    KeptSolo(s.active, kept);
    KeptLoad(s.queue, dropped);
    KeptLoad(s.active, kept);
    ThinnedIds(s, dropped, kept, t);
  }

  lemma ThinnedIds(s: Sender, dropped: set<nat>, kept: set<nat>, t: Sender)
    requires IdsDistinct(s) && t.queue == Kept(s.queue, dropped) && t.active == Kept(s.active, kept)
    ensures IdsDistinct(t)
  {
    hide Kept;
  }

  lemma DropKeepsInv(s: Sender, p: Policy, dropped: set<nat>, reason: Reason)
    requires Inv(s, p)
    ensures Inv(Drop(s, dropped, reason), p)
  {
    hide Departures, Inv, Kept;
    ThinnedInv(s, p, dropped, dropped, Drop(s, dropped, reason));
  }

  lemma LeaveKeepsInv(s: Sender, p: Policy, b: Burst, reason: Reason)
    requires Inv(s, p)
    ensures Inv(Leave(s, b, reason), p)
  {
    hide Inv, Kept;
    NothingKept(s);
    ThinnedInv(s, p, {}, {b.order}, Leave(s, b, reason));
  }

  lemma NothingKept(s: Sender)
    ensures Kept(s.queue, {}) == s.queue
  {
    KeptNothing(s.queue, {});
  }

  // `b` with a new transmission state.
  ghost predicate Restated(b: Burst, c: Burst) {
    c.peer == b.peer && c.transactionId == b.transactionId && c.fragments == b.fragments && c.order == b.order && c.priority == b.priority
  }

  lemma AmendKeepsInv(s: Sender, p: Policy, b: Burst, c: Burst)
    requires Inv(s, p) && b in s.active && Restated(b, c) && Flying(c, p)
    ensures Inv(Amend(s, c), p)
  {
    hide Unsent, Flying, InOrder, Solo, Load, Replaced;
    ReplacedMembers(s.active, b, c);
    forall x | x in s.active && x.order == c.order
      ensures x == b
    {
      SameOrder(s, p, x, b);
    }
    ReplacedLoad(s.active, c);
    ReplacedSolo(s.active, b, c);
  }

  lemma ReplacedSolo(active: seq<Burst>, b: Burst, c: Burst)
    requires Solo(active) && b in active && Restated(b, c)
    ensures Solo(Replaced(active, c))
  {
    var k :| 0 <= k < |active| && active[k] == b;
  }

  lemma LaunchKeepsInv(s: Sender, p: Policy, b: Burst, now: nat)
    requires Inv(s, p) && p.Valid() && b in s.queue
    ensures Inv(Launch(s, p, b, now), p)
  {
    hide InOrder, Load, Kept, MaySend;
    if ActiveOf(s.active, b.peer).None? && MaySend(s, b.peer, p, now) {
      var c := First(b, p, now);
      KeptOrdered(s.queue, {b.order});
      KeptLoadOne(s.queue, b);
      LoadAppend(s.active, c);
      LaunchedIds(s, b, c, Launch(s, p, b, now));
      FirstFlies(b, p, now);
    }
  }

  lemma FirstFlies(b: Burst, p: Policy, now: nat)
    requires Unsent(b) && p.Valid()
    ensures Flying(First(b, p, now), p)
  {
  }

  lemma LaunchedIds(s: Sender, b: Burst, c: Burst, t: Sender)
    requires IdsDistinct(s) && b in s.queue && Restated(b, c)
    requires t.queue == Kept(s.queue, {b.order}) && t.active == s.active + [c]
    ensures IdsDistinct(t)
  {
    hide Kept;
    forall x, y | Live(t, x) && Live(t, y) && x.peer == y.peer && x.transactionId == y.transactionId
      ensures x.order == y.order
    {
      var x0, y0 := if x == c then b else x, if y == c then b else y;
      assert Live(s, x0) && Live(s, y0);
    }
  }

  lemma EnqueueKeepsInv(s: Sender, p: Policy, b: Burst)
    requires Inv(s, p) && Unsent(b) && b.order == s.nextOrder && b.priority <= 1
    requires b.transactionId !in TakenIds(s, b.peer)
    requires Load(s.queue) + Load(s.active) + |b.fragments| <= p.queueCapacity
    ensures Inv(s.(queue := s.queue + [b], nextOrder := s.nextOrder + 1), p)
  {
    hide Load, Flying, Unsent, TakenIds;
    LoadAppend(s.queue, b);
    EnqueuedIds(s, b, s.(queue := s.queue + [b], nextOrder := s.nextOrder + 1));
    EnqueuedOrder(s.queue, b);
  }

  lemma EnqueuedOrder(queue: seq<Burst>, b: Burst)
    requires InOrder(queue) && forall x :: x in queue ==> x.order < b.order
    ensures InOrder(queue + [b])
  {
  }

  lemma EnqueuedIds(s: Sender, b: Burst, t: Sender)
    requires IdsDistinct(s) && b.transactionId !in TakenIds(s, b.peer)
    requires t.queue == s.queue + [b] && t.active == s.active
    ensures IdsDistinct(t)
  {
    forall x, y | Live(t, x) && Live(t, y) && x.peer == y.peer && x.transactionId == y.transactionId
      ensures x.order == y.order
    {
      if x != b {
        IdFree(s, b, x);
      }
      if y != b {
        IdFree(s, b, y);
      }
    }
  }

  lemma IdFree(s: Sender, b: Burst, x: Burst)
    requires b.transactionId !in TakenIds(s, b.peer) && Live(s, x)
    ensures x.peer != b.peer || x.transactionId != b.transactionId
  {
    assert x in s.active + s.queue;
  }

  lemma SameLiveInv(s: Sender, p: Policy, t: Sender)
    requires Inv(s, p) && t.queue == s.queue && t.active == s.active && t.nextOrder == s.nextOrder
    ensures Inv(t, p)
  {
    hide Load, Flying, Unsent, InOrder, Solo;
  }

  // A frame that can be cut up at all gives between one and sixteen fragments.
  lemma FragmentCount(frame: Bytes, id: string)
    requires FragmentFrame(frame, id).Ok?
    ensures 1 <= |FragmentFrame(frame, id).value| <= MAX_FRAGMENTS
    ensures FragmentFrame(frame, id).value == Fragments(id, Chunks(frame))
  {
    hide Body, FragmentOf;
  }

  lemma AdmitKeepsInv(s: Sender, p: Policy, r: Request, id: string)
    requires Inv(s, p) && id !in TakenIds(s, r.peer)
    ensures Inv(Admit(s, p, r, id).sender, p)
  {
    hide Inv, FragmentFrame, Load, TakenIds;
    var f := FragmentFrame(r.frame, id);
    if f.Ok? && Load(s.queue) + Load(s.active) + |f.value| <= p.queueCapacity {
      FragmentCount(r.frame, id);
      EnqueueKeepsInv(s, p, NewBurst(r, id, f.value, s.nextOrder));
    }
  }

  lemma QueueFrameKeepsInv(s: Sender, p: Policy, r: Request)
    requires Inv(s, p)
    ensures Inv(QueueFrame(s, p, r).sender, p)
  {
    hide Inv, Admit, Search, TakenIds, ValidPeer, PushedOut, Drop;
    var cleared := if r.proactive then Drop(s, PushedOut(s, r.peer), Superseded) else s;
    DropKeepsInv(s, p, PushedOut(s, r.peer), Superseded);
    var found := Search(NextId(cleared, r.peer), TakenIds(cleared, r.peer), 256);
    var counted := cleared.(nextId := cleared.nextId[r.peer := found.next]);
    SameLiveInv(cleared, p, counted);
    SameTaken(cleared, counted, r.peer);
    if found.id.Some? {
      AdmitKeepsInv(counted, p, r, found.id.value);
    }
  }

  lemma SameTaken(s: Sender, t: Sender, peer: string)
    requires t.queue == s.queue && t.active == s.active
    ensures TakenIds(t, peer) == TakenIds(s, peer)
  {
  }

  // ------------------------------------------------------------------ polling

  lemma VerdictOfFlying(b: Burst, p: Policy, now: nat)
    requires Flying(b, p)
    ensures !Judge(b, now).GiveUp?
    ensures Judge(b, now).Try? ==> Judge(b, now).indices != {} && Judge(b, now).indices <= All(b)
    ensures now >= b.deadline ==> Judge(b, now).Try?
  {
    assert 0 in All(b);
  }

  lemma PollBurstKeepsInv(s: Sender, p: Policy, b: Burst, now: nat)
    requires Inv(s, p) && p.Valid() && b in s.active
    ensures Inv(PollBurst(s, p, b, now), p)
  {
    hide Inv, Judge, Leave, MaySend, Amend;
    FlyingActive(s, p, b);
    VerdictOfFlying(b, p, now);
    var v := Judge(b, now);
    if v.Try? {
      if b.attempts >= p.maxAttempts {
        LeaveKeepsInv(s, p, b, Exhausted);
      } else if !MaySend(s, b.peer, p, now) {
        AmendKeepsInv(s, p, b, b.(requested := Some(v.indices)));
      } else {
        AmendKeepsInv(s, p, b, Again(b, p, now));
        SameLiveInv(Amend(s, Again(b, p, now)), p, PollBurst(s, p, b, now));
      }
    }
  }

  lemma FlyingActive(s: Sender, p: Policy, b: Burst)
    requires Inv(s, p) && b in s.active
    ensures Flying(b, p) && b.order < s.nextOrder
  {
  }

  // Polling one burst leaves every other burst alone.
  ghost predicate OnlyTouches(s: Sender, t: Sender, b: Burst) {
    && t.queue == s.queue && t.nextOrder == s.nextOrder
    && (forall x: Burst :: x.order != b.order ==> (x in s.active <==> x in t.active))
    && (forall peer :: peer != b.peer ==> SameRate(s, t, peer))
  }

  ghost predicate SameRate(s: Sender, t: Sender, peer: string) {
    (peer in t.lastSend <==> peer in s.lastSend) && (peer in s.lastSend ==> t.lastSend[peer] == s.lastSend[peer])
  }

  lemma AmendTouches(s: Sender, b: Burst, c: Burst)
    requires Solo(s.active) && b in s.active && Restated(b, c)
    ensures OnlyTouches(s, Amend(s, c), b)
  {
    hide Replaced, Solo;
    ReplacedMembers(s.active, b, c);
  }

  lemma LeaveTouches(s: Sender, b: Burst, reason: Reason)
    ensures OnlyTouches(s, Leave(s, b, reason), b)
  {
    hide Kept;
  }

  lemma PollBurstTouches(s: Sender, p: Policy, b: Burst, now: nat)
    requires Inv(s, p) && b in s.active
    ensures OnlyTouches(s, PollBurst(s, p, b, now), b)
  {
    hide Judge, Leave, Amend, Inv, Solo;
    SoloActive(s, p);
    LeaveTouches(s, b, Exhausted);
    AmendTouches(s, b, Again(b, p, now));
    var v := Judge(b, now);
    if v.Try? {
      AmendTouches(s, b, b.(requested := Some(v.indices)));
    }
  }

  // Part way through a poll the bursts still to come are as they were.
  lemma {:induction false} PollActiveKeepsInv(s: Sender, p: Policy, now: nat, n: nat)
    requires Inv(s, p) && p.Valid() && n <= |s.active|
    ensures var t := PollActive(s, p, s.active, now, n);
            && Inv(t, p)
            && t.queue == s.queue && t.nextOrder == s.nextOrder
            && (forall i :: n <= i < |s.active| ==> s.active[i] in t.active && SameRate(s, t, s.active[i].peer))
  {
    hide Inv, PollBurst, PollActive;
    if n == 0 {
      PollActiveStart(s, p, now);
    } else {
      PollActiveKeepsInv(s, p, now, n - 1);
      PollActiveStep(s, p, s.active, now, n);
      var t := PollActive(s, p, s.active, now, n - 1);
      PollBurstKeepsInv(t, p, s.active[n - 1], now);
      PollBurstTouches(t, p, s.active[n - 1], now);
      SoloActive(s, p);
      forall i | n <= i < |s.active|
        ensures s.active[i] in PollBurst(t, p, s.active[n - 1], now).active
        ensures SameRate(s, PollBurst(t, p, s.active[n - 1], now), s.active[i].peer)
      {
        assert s.active[n - 1].peer != s.active[i].peer && s.active[n - 1].order != s.active[i].order;
        assert SameRate(s, t, s.active[i].peer);
        assert SameRate(t, PollBurst(t, p, s.active[n - 1], now), s.active[i].peer);
      }
    }
  }

  lemma PollActiveStart(s: Sender, p: Policy, now: nat)
    ensures PollActive(s, p, s.active, now, 0) == s
  {
  }

  lemma PollActiveStep(s: Sender, p: Policy, snapshot: seq<Burst>, now: nat, n: nat)
    requires 0 < n <= |snapshot|
    ensures PollActive(s, p, snapshot, now, n) == PollBurst(PollActive(s, p, snapshot, now, n - 1), p, snapshot[n - 1], now)
  {
    hide PollBurst;
  }

  lemma SoloActive(s: Sender, p: Policy)
    requires Inv(s, p)
    ensures Solo(s.active)
    ensures forall a, b :: a in s.active && b in s.active && a.order == b.order ==> a == b
  {
  }

  // --------------------------------------------------------------- launching

  lemma {:induction false} OfPriorityOrdered(queue: seq<Burst>, priority: nat)
    requires InOrder(queue)
    ensures InOrder(OfPriority(queue, priority))
  {
    if queue == [] {
    } else {
      var prefix, last := queue[..|queue| - 1], queue[|queue| - 1];
      OfPriorityOrdered(prefix, priority);
      var r := OfPriority(prefix, priority);
      forall i | 0 <= i < |r|
        ensures r[i].order < last.order
      {
        assert r[i] in r;
      }
    }
  }

  predicate Before(a: Burst, b: Burst) {
    a.priority < b.priority || (a.priority == b.priority && a.order < b.order)
  }

  // The candidates are the queue's bursts sorted by (priority, order).
  lemma CandidatesSorted(s: Sender, p: Policy)
    requires Inv(s, p)
    ensures var c := Candidates(s.queue);
            && (forall b :: b in c <==> b in s.queue)
            && (forall i, j :: 0 <= i < j < |c| ==> Before(c[i], c[j]))
  {
    hide OfPriority, Load, Flying, Unsent;
    OfPriorityOrdered(s.queue, 0);
    OfPriorityOrdered(s.queue, 1);
    var first, second := OfPriority(s.queue, 0), OfPriority(s.queue, 1);
    var c := first + second;
    forall i, j | 0 <= i < j < |c|
      ensures Before(c[i], c[j])
    {
      assert i < |first| ==> c[i] in first;
      assert i >= |first| ==> c[i] in second;
      assert j < |first| ==> c[j] in first;
      assert j >= |first| ==> c[j] in second;
    }
  }

  lemma LaunchTouches(s: Sender, p: Policy, b: Burst, now: nat)
    ensures forall x: Burst :: x in s.queue && x.order != b.order ==> x in Launch(s, p, b, now).queue
    ensures Launch(s, p, b, now).nextOrder == s.nextOrder
  {
    hide Kept, MaySend, ActiveOf;
  }

  lemma {:induction false} LaunchAllKeepsInv(s: Sender, p: Policy, now: nat, n: nat)
    requires Inv(s, p) && p.Valid() && n <= |Candidates(s.queue)|
    ensures var c := Candidates(s.queue);
            var t := LaunchAll(s, p, c, now, n);
            Inv(t, p) && t.nextOrder == s.nextOrder && forall i :: n <= i < |c| ==> c[i] in t.queue
  {
    hide Inv, Launch, LaunchAll, Candidates;
    var c := Candidates(s.queue);
    CandidatesSorted(s, p);
    if n == 0 {
      LaunchStart(s, p, c, now);
    } else {
      LaunchAllKeepsInv(s, p, now, n - 1);
      LaunchStep(s, p, c, now, n);
      var t := LaunchAll(s, p, c, now, n - 1);
      LaunchKeepsInv(t, p, c[n - 1], now);
      LaunchTouches(t, p, c[n - 1], now);
      forall i | n <= i < |c|
        ensures c[i] in Launch(t, p, c[n - 1], now).queue
      {
        assert Before(c[n - 1], c[i]);
        SameOrderIs(s, p, c[n - 1], c[i]);
      }
    }
  }

  lemma SameOrderIs(s: Sender, p: Policy, a: Burst, b: Burst)
    requires Inv(s, p) && a in s.queue && b in s.queue && Before(a, b)
    ensures a.order != b.order
  {
    if a.order == b.order {
      SameOrder(s, p, a, b);
    }
  }

  lemma LaunchStart(s: Sender, p: Policy, c: seq<Burst>, now: nat)
    ensures LaunchAll(s, p, c, now, 0) == s
  {
  }

  lemma LaunchStep(s: Sender, p: Policy, c: seq<Burst>, now: nat, n: nat)
    requires 0 < n <= |c|
    ensures LaunchAll(s, p, c, now, n) == Launch(LaunchAll(s, p, c, now, n - 1), p, c[n - 1], now)
  {
    hide Launch;
  }

  lemma PollKeepsInv(s: Sender, p: Policy, now: nat)
    requires Inv(s, p) && p.Valid()
    ensures Inv(PollSender(s, p, now), p)
  {
    hide Inv, PollActive, LaunchAll, Candidates;
    PollActiveKeepsInv(s, p, now, |s.active|);
    var t := PollActive(s, p, s.active, now, |s.active|);
    LaunchAllKeepsInv(t, p, now, |Candidates(t.queue)|);
  }
}
