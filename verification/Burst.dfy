// The transmit side of the selective-burst adapter: what is queued, which
// burst is in flight to each peer, and when it is sent, repeated or given up.
module Burst {
  import opened Prelude
  import opened Carriage
  import opened Reassembly

  datatype Policy = Policy(ackTimeout: nat, maxAttempts: nat, minInterval: nat, queueCapacity: nat) {
    predicate Valid() {
      ackTimeout > 0 && maxAttempts > 0 && queueCapacity > 0
    }
  }

  datatype Packet = Packet(destination: string, body: string)

  datatype Delivery = Delivery(recipient: Bytes, sequence: nat)

  // `order` numbers the bursts as they are queued and so identifies each one.
  datatype Burst = Burst(
    peer: string,
    transactionId: string,
    fragments: seq<Fragment>,
    priority: nat,
    order: nat,
    delivery: Option<Delivery>,
    batch: Option<Key>,
    supersedable: bool,
    attempts: nat,
    deadline: nat,
    requested: Option<set<nat>>,
    repairActive: bool,
    repairIndices: Option<set<nat>>)

  datatype Reason = Confirmed | Exhausted | Superseded | Compacted

  datatype CoreMark = MarkDelivered(delivered: Delivery) | MarkFailed(failed: Delivery)

  // What an observer sees the transmit side do, oldest first.
  datatype Entry =
    | Transmitted(burst: Burst, indices: set<nat>, at: nat)
    | Left(burst: Burst, reason: Reason)
    | Marked(mark: CoreMark)

  // `active` is in the order the bursts became active, at most one a peer.
  datatype Sender = Sender(
    queue: seq<Burst>,
    active: seq<Burst>,
    nextId: map<string, nat>,
    lastSend: map<string, nat>,
    nextOrder: nat,
    journal: seq<Entry>)

  const IDLE: Sender := Sender([], [], map[], map[], 0, [])

  function Load(bursts: seq<Burst>): nat {
    if bursts == [] then 0 else Load(bursts[..|bursts| - 1]) + |bursts[|bursts| - 1].fragments|
  }

  function Upto(n: nat): (s: set<nat>)
    ensures |s| == n
    ensures forall i: nat :: i in s <==> i < n
  {
    if n == 0 then {} else Upto(n - 1) + {n - 1}
  }

  function All(b: Burst): set<nat> {
    Upto(|b.fragments|)
  }

  function ActiveOf(active: seq<Burst>, peer: string): (r: Option<Burst>)
    ensures r.Some? ==> r.value in active && r.value.peer == peer
    ensures r.None? ==> forall b :: b in active ==> b.peer != peer
  {
    if active == [] then None
    else if active[|active| - 1].peer == peer then Some(active[|active| - 1])
    else ActiveOf(active[..|active| - 1], peer)
  }

  function Kept(bursts: seq<Burst>, dropped: set<nat>): (r: seq<Burst>)
    ensures forall b :: b in r <==> b in bursts && b.order !in dropped
  {
    if bursts == [] then []
    else
      var last := bursts[|bursts| - 1];
      Kept(bursts[..|bursts| - 1], dropped) + (if last.order in dropped then [] else [last])
  }

  function Departures(bursts: seq<Burst>, dropped: set<nat>, reason: Reason): seq<Entry> {
    if bursts == [] then []
    else
      var last := bursts[|bursts| - 1];
      Departures(bursts[..|bursts| - 1], dropped, reason) + (if last.order in dropped then [Left(last, reason)] else [])
  }

  function Drop(s: Sender, dropped: set<nat>, reason: Reason): Sender {
    s.(queue := Kept(s.queue, dropped),
       active := Kept(s.active, dropped),
       journal := s.journal + Departures(s.active, dropped, reason) + Departures(s.queue, dropped, reason))
  }

  function Replaced(bursts: seq<Burst>, b: Burst): (r: seq<Burst>)
    ensures |r| == |bursts|
    ensures forall i :: 0 <= i < |r| ==> r[i] == if bursts[i].order == b.order then b else bursts[i]
  {
    seq(|bursts|, i requires 0 <= i < |bursts| => if bursts[i].order == b.order then b else bursts[i])
  }

  // -------------------------------------------------------- transaction ids

  function TakenIds(s: Sender, peer: string): set<string> {
    set b | b in s.active + s.queue && b.peer == peer :: b.transactionId
  }

  function NextId(s: Sender, peer: string): nat {
    if peer in s.nextId then s.nextId[peer] else 0
  }

  datatype Allocation = Allocation(id: Option<string>, next: nat)

  // Try `tries` values in cyclic order and take the first that is free.
  function Search(next: nat, taken: set<string>, tries: nat): (r: Allocation)
    ensures r.id.Some? ==> r.id.value !in taken && exists v: byte :: r.id.value == TransactionText(v)
    decreases tries
  {
    if tries == 0 then Allocation(None, next)
    else
      var v: byte := next % 256;
      if TransactionText(v) !in taken then Allocation(Some(TransactionText(v)), v + 1)
      else Search(v + 1, taken, tries - 1)
  }

  // ------------------------------------------------------------ supersession

  predicate Replaceable(b: Burst) {
    b.batch.Some? && b.supersedable
  }

  // A proactive frame pushes a replaceable response off the air, together with
  // what is still queued of its batch.
  function PushedOut(s: Sender, peer: string): set<nat> {
    match ActiveOf(s.active, peer)
    case None => {}
    case Some(a) =>
      if !Replaceable(a) then {}
      else {a.order} + set b | b in s.queue && b.peer == peer && b.batch == a.batch :: b.order
  }

  function StaleBatches(s: Sender, peer: string, current: Key): set<Key> {
    (set b | b in s.queue && b.peer == peer && Replaceable(b) && b.batch.value != current :: b.batch.value)
    + (match ActiveOf(s.active, peer)
       case None => {}
       case Some(a) => if Replaceable(a) && a.batch.value != current then {a.batch.value} else {})
  }

  // Older replaceable responses to a peer give way to the current batch.
  function Outdated(s: Sender, peer: string, current: Key): set<nat> {
    var stale := StaleBatches(s, peer, current);
    (set b | b in s.queue && b.batch.Some? && b.batch.value in stale :: b.order)
    + (match ActiveOf(s.active, peer)
       case None => {}
       case Some(a) => if a.batch.Some? && a.batch.value in stale then {a.order} else {})
  }

  // The response bursts a durable S2 makes redundant.
  function Redundant(s: Sender, batch: Key): set<nat> {
    (set b | b in s.queue && b.batch == Some(batch) :: b.order)
    + (match ActiveOf(s.active, batch.peer)
       case None => {}
       case Some(a) => if a.batch == Some(batch) then {a.order} else {})
  }

  // ----------------------------------------------------------------- queuing

  datatype QueueError = BadPeer | NoFreeId | Unframeable | QueueFull

  datatype Queued = Queued(sender: Sender, result: Result<string, QueueError>)

  predicate IsPeerChar(c: char) {
    'A' <= c <= 'Z' || '0' <= c <= '9'
  }

  function DigitsValue(text: string): nat {
    if text == "" then 0
    else DigitsValue(text[..|text| - 1]) * 10
         + (if '0' <= text[|text| - 1] <= '9' then text[|text| - 1] as int - '0' as int else 0)
  }

  predicate IsSsid(text: string) {
    1 <= |text| <= 2 && (forall i :: 0 <= i < |text| ==> '0' <= text[i] <= '9') && DigitsValue(text) <= 15
  }

  // The address without its "-SSID".
  function BaseOf(peer: string): (r: string)
    ensures |r| <= |peer| && r == peer[..|r|] && '-' !in r
  {
    if peer == "" || peer[0] == '-' then "" else [peer[0]] + BaseOf(peer[1..])
  }

  predicate ValidPeer(peer: string) {
    var base := BaseOf(peer);
    && 3 <= |base| <= 12
    && (forall i :: 0 <= i < |base| ==> IsPeerChar(base[i]))
    && (|base| == |peer| || IsSsid(peer[|base| + 1..]))
  }

  datatype Request = Request(
    peer: string,
    frame: Bytes,
    proactive: bool,
    delivery: Option<Delivery>,
    batch: Option<Key>,
    supersedable: bool)

  function NewBurst(r: Request, id: string, fragments: seq<Fragment>, order: nat): Burst {
    Burst(r.peer, id, fragments, if r.proactive then 1 else 0, order, r.delivery, r.batch, r.supersedable,
          0, 0, None, false, None)
  }

  function Admit(s: Sender, p: Policy, r: Request, id: string): Queued {
    match FragmentFrame(r.frame, id)
    case Err(_) => Queued(s, Err(Unframeable))
    case Ok(fragments) =>
      if Load(s.queue) + Load(s.active) + |fragments| > p.queueCapacity then Queued(s, Err(QueueFull))
      else
        Queued(s.(queue := s.queue + [NewBurst(r, id, fragments, s.nextOrder)], nextOrder := s.nextOrder + 1), Ok(id))
  }

  // A refused frame still costs the counter its value, and what a proactive
  // frame pushed out stays out.
  function QueueFrame(s: Sender, p: Policy, r: Request): Queued {
    if !ValidPeer(r.peer) then Queued(s, Err(BadPeer))
    else
      var cleared := if r.proactive then Drop(s, PushedOut(s, r.peer), Superseded) else s;
      var found := Search(NextId(cleared, r.peer), TakenIds(cleared, r.peer), 256);
      var counted := cleared.(nextId := cleared.nextId[r.peer := found.next]);
      if found.id.None? then Queued(counted, Err(NoFreeId)) else Admit(counted, p, r, found.id.value)
  }

  function SupersedeStale(s: Sender, peer: string, current: Key): Sender {
    Drop(s, Outdated(s, peer, current), Superseded)
  }

  function CompactBatch(s: Sender, batch: Key): Sender {
    Drop(s, Redundant(s, batch), Compacted)
  }

  // ---------------------------------------------------------------- controls

  // The burst in flight that a control message for (peer, id) speaks of.
  function InFlight(s: Sender, peer: string, id: string): Option<Burst> {
    var a := ActiveOf(s.active, peer);
    if a.Some? && a.value.transactionId == id then a else None
  }

  // `b` is no longer in flight; Core hears of it when it carried a delivery.
  function Leave(s: Sender, b: Burst, reason: Reason): Sender {
    s.(active := Kept(s.active, {b.order}),
       journal := s.journal + [Left(b, reason)]
                  + (match b.delivery
                     case None => []
                     case Some(d) => [Marked(if reason == Confirmed then MarkDelivered(d) else MarkFailed(d))]))
  }

  function Wanted(b: Burst, missing: set<nat>): set<nat> {
    set i | i in missing && i < |b.fragments|
  }

  function Repairing(b: Burst, wanted: set<nat>): Burst {
    b.(requested := Some(wanted), repairActive := true, repairIndices := Some(wanted))
  }

  function Amend(s: Sender, b: Burst): Sender {
    s.(active := Replaced(s.active, b))
  }

  // ----------------------------------------------------------------- polling

  predicate MaySend(s: Sender, peer: string, p: Policy, now: nat) {
    peer !in s.lastSend || now - s.lastSend[peer] >= p.minInterval
  }

  datatype Verdict = Rest | GiveUp | Try(indices: set<nat>)

  function Judge(b: Burst, now: nat): Verdict {
    if b.requested.Some? then Try(b.requested.value)
    else if b.deadline == 0 || now < b.deadline then Rest
    else if !b.repairActive then Try(All(b))
    else if b.repairIndices.Some? && b.repairIndices.value != {} then Try(b.repairIndices.value)
    else GiveUp
  }

  function Again(b: Burst, p: Policy, now: nat): Burst {
    b.(requested := None, attempts := b.attempts + 1, deadline := now + p.ackTimeout)
  }

  function PollBurst(s: Sender, p: Policy, b: Burst, now: nat): Sender {
    match Judge(b, now)
    case Rest => s
    case GiveUp => Leave(s, b, Exhausted)
    case Try(indices) =>
      if b.attempts >= p.maxAttempts then Leave(s, b, Exhausted)
      else if !MaySend(s, b.peer, p, now) then Amend(s, b.(requested := Some(indices)))
      else
        Amend(s, Again(b, p, now)).(lastSend := s.lastSend[b.peer := now],
                                    journal := s.journal + [Transmitted(Again(b, p, now), indices, now)])
  }

  // The first n of the bursts that were active when the poll began.
  function PollActive(s: Sender, p: Policy, snapshot: seq<Burst>, now: nat, n: nat): Sender
    requires n <= |snapshot|
  {
    if n == 0 then s else PollBurst(PollActive(s, p, snapshot, now, n - 1), p, snapshot[n - 1], now)
  }

  function OfPriority(queue: seq<Burst>, priority: nat): (r: seq<Burst>)
    ensures forall b :: b in r <==> b in queue && b.priority == priority
  {
    if queue == [] then []
    else
      var last := queue[|queue| - 1];
      OfPriority(queue[..|queue| - 1], priority) + (if last.priority == priority then [last] else [])
  }

  // The queue by (priority, order): it is already in order of `order`.
  function Candidates(queue: seq<Burst>): seq<Burst> {
    OfPriority(queue, 0) + OfPriority(queue, 1)
  }

  function First(b: Burst, p: Policy, now: nat): Burst {
    b.(attempts := 1, deadline := now + p.ackTimeout)
  }

  function Launch(s: Sender, p: Policy, b: Burst, now: nat): Sender {
    if ActiveOf(s.active, b.peer).Some? || !MaySend(s, b.peer, p, now) then s
    else
      s.(queue := Kept(s.queue, {b.order}),
         active := s.active + [First(b, p, now)],
         lastSend := s.lastSend[b.peer := now],
         journal := s.journal + [Transmitted(First(b, p, now), All(b), now)])
  }

  function LaunchAll(s: Sender, p: Policy, candidates: seq<Burst>, now: nat, n: nat): Sender
    requires n <= |candidates|
  {
    if n == 0 then s else Launch(LaunchAll(s, p, candidates, now, n - 1), p, candidates[n - 1], now)
  }

  function PollSender(s: Sender, p: Policy, now: nat): Sender {
    var swept := PollActive(s, p, s.active, now, |s.active|);
    var candidates := Candidates(swept.queue);
    LaunchAll(swept, p, candidates, now, |candidates|)
  }

  // ----------------------------------------------------------------- packets

  function FragmentText(f: Fragment): string {
    match Body(f)
    case Ok(text) => text
    case Err(_) => ""
  }

  // The packets for the wanted fragments among the first n, in index order.
  function PacketsOf(b: Burst, indices: set<nat>, n: nat): seq<Packet>
    requires n <= |b.fragments|
  {
    if n == 0 then []
    else
      PacketsOf(b, indices, n - 1)
      + (if n - 1 in indices then [Packet(b.peer, FragmentText(b.fragments[n - 1]))] else [])
  }

  function EntryPackets(e: Entry): seq<Packet> {
    if e.Transmitted? then PacketsOf(e.burst, e.indices, |e.burst.fragments|) else []
  }

  // What the entries from `start` on put on the air.
  function Emitted(journal: seq<Entry>, start: nat): seq<Packet>
    decreases |journal|
  {
    if |journal| <= start then []
    else Emitted(journal[..|journal| - 1], start) + EntryPackets(journal[|journal| - 1])
  }
}
