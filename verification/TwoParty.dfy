// Selective repair between two adapters: what a receiver asks for, the sender
// sends and nothing more, and every fragment that arrives shrinks what is
// missing.
module TwoParty {
  import opened Prelude
  import opened Ordered
  import opened Carriage
  import opened Control
  import opened Burst
  import opened Selective
  import opened SelectiveProofs
  import B = Bookkeeping
  import BP = BurstProofs
  import BR = BurstRuns
  import BG = BurstProgress
  import R = Reassembly
  import P = Replay
  import C = Codec
  import Base91

  // ------------------------------------------------------ the request arrives

  lemma RequestParses(key: Key, missing: set<nat>)
    requires OneByteId(key) && missing != {} && missing <= Upto(MAX_FRAGMENTS)
    ensures EncodeMissing(key.transactionId, missing).Ok?
    ensures var body := MissingPacket(key, missing).body;
            ParseControl(body) == Some(Missing(key.transactionId, missing)) && ParseFragment(body).Err?
  {
    hide ParseControl, ParseFragment, EncodeMissing;
    MissingRoundTrip(key.transactionId, missing);
    RequestIsTagged(key.transactionId, missing);
  }

  lemma RequestIsTagged(id: string, missing: set<nat>)
    requires EncodeMissing(id, missing).Ok?
    ensures ParseFragment(EncodeMissing(id, missing).value).Err?
  {
    hide ParseFragment, MaskBelow, Base91.Encoded;
    MaskBelowBits(missing, 16);
    var mask := MaskBelow(missing, 16);
    Pow2Values();
    ControlIsNoFragment("N2", [TransactionByte(id).value, mask / 256, mask % 256]);
  }

  // What a repair request asks for; that it exists shows its id fits one byte.
  lemma Asked(x: Packet, key: Key, a: R.Assembly) returns (missing: set<nat>)
    requires B.AsksFor(x, key, a) && a.total <= MAX_FRAGMENTS
    ensures OneByteId(key) && EncodeMissing(key.transactionId, missing).Ok? && x == MissingPacket(key, missing)
    ensures B.JustMissing(missing, a) && missing != {} && missing <= Upto(a.total) && missing <= Upto(MAX_FRAGMENTS)
  {
    hide MaskBelow, Base91.Encoded;
    missing :| EncodeMissing(key.transactionId, missing).Ok? && x == MissingPacket(key, missing) && B.JustMissing(missing, a);
  }

  // A repair request for a burst in flight puts it under repair for exactly
  // the fragments the receiver lacks.
  lemma RequestGoverns(s: State, cfg: Settings, receiver: string, key: Key, a: R.Assembly, x: Packet, b: Burst, env: Env)
    returns (missing: set<nat>)
    requires cfg.Valid() && BP.Inv(s.sender, cfg.policy) && ValidPeer(receiver)
    requires InFlight(s.sender, receiver, key.transactionId) == Some(b)
    requires |b.fragments| == a.total <= MAX_FRAGMENTS && B.AsksFor(x, key, a)
    ensures B.JustMissing(missing, a)
    ensures var r := Receive(s, cfg, receiver, x.body, env);
            && r.outcome == Ok(RepairRequested)
            && r.state == s.(sender := BR.Repair(s.sender, receiver, key.transactionId, missing))
            && BG.Governed(r.state.sender, b.order, missing, |s.sender.journal|)
            && Repairing(b, missing) in r.state.sender.active
  {
    hide ParseControl, ParseFragment, InFlight, BP.Inv, ValidPeer, BG.Governed, EncodeMissing, OneByteId;
    hide Upto, Repairing, Wanted;
    missing := Asked(x, key, a);
    RequestParses(key, missing);
    AllOf(b, missing, a.total);
    BR.WantedInRange(b, missing);
    BG.RepairGoverns(s.sender, cfg.policy, receiver, key.transactionId, missing);
  }

  lemma AllOf(b: Burst, missing: set<nat>, total: int)
    requires |b.fragments| == total && missing <= Upto(total)
    ensures missing <= All(b)
  {
  }

  // ---------------------------------------------------- the answer is sent

  lemma {:induction false} PacketIncluded(b: Burst, indices: set<nat>, i: nat, n: nat)
    requires i < n <= |b.fragments| && i in indices
    ensures Packet(b.peer, FragmentText(b.fragments[i])) in PacketsOf(b, indices, n)
  {
    hide FragmentText;
    if i < n - 1 {
      PacketIncluded(b, indices, i, n - 1);
    }
  }

  lemma {:induction false} OnlyIncluded(b: Burst, indices: set<nat>, n: nat)
    requires n <= |b.fragments|
    ensures forall x :: x in PacketsOf(b, indices, n) ==>
              exists i :: 0 <= i < n && i in indices && x == Packet(b.peer, FragmentText(b.fragments[i]))
  {
    hide FragmentText;
    if n == 0 {
    } else {
      OnlyIncluded(b, indices, n - 1);
      forall x | x in PacketsOf(b, indices, n)
        ensures exists i :: 0 <= i < n && i in indices && x == Packet(b.peer, FragmentText(b.fragments[i]))
      {
        if x in PacketsOf(b, indices, n - 1) {
          var i :| 0 <= i < n - 1 && i in indices && x == Packet(b.peer, FragmentText(b.fragments[i]));
          assert 0 <= i < n;
        } else {
          var i: nat := n - 1;
          assert i in indices && x == Packet(b.peer, FragmentText(b.fragments[i]));
        }
      }
    }
  }

  lemma {:induction false} EntryEmitted(journal: seq<Entry>, start: nat, k: nat, x: Packet)
    requires start <= k < |journal| && x in EntryPackets(journal[k])
    ensures x in Emitted(journal, start)
    decreases |journal|
  {
    hide EntryPackets;
    if k < |journal| - 1 {
      EntryEmitted(journal[..|journal| - 1], start, k, x);
    }
  }

  // The next poll that may send at all puts every missing fragment on the air.
  lemma MissingIsSent(s: State, cfg: Settings, b: Burst, missing: set<nat>, now: nat, i: nat)
    requires cfg.Valid() && BP.Inv(s.sender, cfg.policy) && b in s.sender.active && b.requested == Some(missing)
    requires b.attempts < cfg.policy.maxAttempts && MaySend(s.sender, b.peer, cfg.policy, now)
    requires i in missing && i < |b.fragments| && !Raises(s, cfg, now)
    ensures Packet(b.peer, FragmentText(b.fragments[i])) in Poll(s, cfg, now).packets.value
  {
    hide BP.Inv, MaySend, PollSender, Poll, FragmentText, Emitted, PacketsOf;
    PolledState(s, cfg, now);
    BG.RepairIsSent(s.sender, cfg.policy, b, missing, now);
    var journal := PollSender(s.sender, cfg.policy, now).journal;
    var c := Again(b, cfg.policy, now);
    var k :| |s.sender.journal| <= k < |journal| && journal[k] == Transmitted(c, missing, now);
    PacketIncluded(c, missing, i, |c.fragments|);
    EntryEmitted(journal, |s.sender.journal|, k, Packet(b.peer, FragmentText(b.fragments[i])));
  }

  // A poll that does not raise lets the transmit side poll, and returns all it
  // transmits.
  lemma PolledState(s: State, cfg: Settings, now: nat)
    requires !Raises(s, cfg, now)
    ensures Poll(s, cfg, now).state.sender == PollSender(s.sender, cfg.policy, now)
    ensures forall x :: x in Emitted(PollSender(s.sender, cfg.policy, now).journal, |s.sender.journal|) ==>
              x in Poll(s, cfg, now).packets.value
  {
    hide PollSender, Nudge, Emitted, R.Expired, P.Aged;
  }

  // --------------------------------------------------- a fragment comes back

  // The fragments a burst was cut into parse back to themselves.
  lemma BurstFragmentParses(frame: Bytes, id: string, i: nat)
    requires FragmentFrame(frame, id).Ok? && i < |FragmentFrame(frame, id).value|
    ensures var f := FragmentFrame(frame, id).value[i];
            && ValidQ2(f) && f.transactionId == id && f.index == i && f.total == |FragmentFrame(frame, id).value|
            && StartsWith(FragmentText(f), "Q2") && ParseFragment(FragmentText(f)) == Ok(f)
  {
    hide Body, ParseFragment, TransactionByte, Base91.Encoded;
    BP.FragmentCount(frame, id);
    var f := FragmentFrame(frame, id).value[i];
    ChunkSize(frame, i);
    Q2RoundTrip(f);
  }

  lemma ChunkSize(frame: Bytes, i: nat)
    requires i < |Chunks(frame)|
    ensures 1 <= |Chunks(frame)[i]| <= CHUNK_SIZE
  {
  }

  // A new fragment for an entry of its own kind and count is always taken in.
  lemma NewPartTaken(t: R.Table, b: R.Bounds, key: Key, entry: R.Assembly, f: Fragment, now: int)
    requires f.version == 2 && f.rawData.Some? && f.index !in entry.parts
    ensures var r := R.Placed(t, b, key, entry, f, now);
            && (r.result.Waiting? <==> |entry.parts| + 1 != entry.total)
            && !r.result.Conflict?
            && (r.result.Waiting? ==>
                  key in r.table.items && r.table.items[key].total == entry.total && r.table.items[key].version == entry.version
                  && r.table.items[key].parts.Keys == entry.parts.Keys + {f.index})
            && (!r.result.Waiting? ==> key !in r.table.items)
  {
    hide R.Assembled, R.Recorded, Delete;
    var grown := R.Grown(entry, f.index, R.Raw(f.rawData.value), now);
    B.RecordedItems(t, key, grown);
    B.AssembledEnds(grown, b);
    B.DeletedItems(R.Recorded(t, key, grown), key);
    OneMorePart(entry.parts, f.index, R.Raw(f.rawData.value));
    AssembledNoConflict(grown, b);
  }

  lemma OneMorePart<V>(parts: map<int, V>, i: int, v: V)
    requires i !in parts
    ensures |parts[i := v]| == |parts| + 1 && parts[i := v].Keys == parts.Keys + {i}
  {
    assert |parts.Keys + {i}| == |parts.Keys| + 1;
    assert parts[i := v].Keys == parts.Keys + {i};
    assert |parts[i := v]| == |parts[i := v].Keys| && |parts| == |parts.Keys|;
  }

  lemma AssembledNoConflict(a: R.Assembly, b: R.Bounds)
    ensures !R.Assembled(a, b).Conflict?
  {
    hide C.DecodeFrameWithFlags, R.JoinBytes, R.JoinText;
  }

  // What the reassembly table holds of `key` after a fragment it lacked.
  lemma MissingPartAdded(s: State, cfg: Settings, peer: string, f: Fragment, now: nat)
    requires cfg.Valid() && B.Agree(s) && ValidQ2(f)
    requires var key := R.Key(peer, f.transactionId);
             && key in s.table.items && B.Spares(s, cfg, key, now)
             && s.table.items[key].version == 2 && s.table.items[key].total == f.total && f.index !in s.table.items[key].parts
    ensures var key := R.Key(peer, f.transactionId);
            var a := s.table.items[key];
            var r := R.Add(s.table, cfg.bounds, peer, f, now);
            && !r.result.Conflict?
            && (r.result.Waiting? <==> |a.parts| + 1 != a.total)
            && (r.result.Waiting? ==>
                  key in r.table.items && r.table.items[key].total == a.total && r.table.items[key].version == 2
                  && r.table.items[key].parts.Keys == a.parts.Keys + {f.index})
            && (!r.result.Waiting? ==> key !in r.table.items)
  {
    hide R.Prepared, R.Placed, B.Spares, B.Mirrors, WellFormed;
    var key := R.Key(peer, f.transactionId);
    B.PreparedWhole(s, cfg, key, now);
    var ready := R.Prepared(s.table, cfg.bounds, key, now);
    NewPartTaken(Put(ready, key, ready.items[key]), cfg.bounds, key, ready.items[key], f, now);
  }

  ghost predicate Lacks(t: R.Table, key: Key, i: nat) {
    key in t.items && i < t.items[key].total && i !in t.items[key].parts
  }

  // Fragment i was the last one and the transaction left reassembly, or it is
  // now held and exactly the others are still lacking.
  ghost predicate Shrunk(before: R.Table, after: R.Table, key: Key, i: nat)
    requires key in before.items
  {
    var a := before.items[key];
    if |a.parts| + 1 == a.total then
      key !in after.items
    else
      && key in after.items && after.items[key].total == a.total && after.items[key].version == a.version
      && after.items[key].parts.Keys == a.parts.Keys + {i as int}
      && !Lacks(after, key, i) && (forall j: nat :: j != i ==> (Lacks(after, key, j) <==> Lacks(before, key, j)))
  }

  // A requested fragment that reaches the receiver strictly shrinks what is
  // missing.
  lemma ArrivalShrinksMissing(s: State, cfg: Settings, sender: string, frame: Bytes, id: string, i: nat, env: Env)
    requires cfg.Valid() && B.Agree(s) && ValidPeer(sender)
    requires FragmentFrame(frame, id).Ok? && i < |FragmentFrame(frame, id).value|
    requires var key := R.Key(sender, id);
             && Lacks(s.table, key, i) && B.Spares(s, cfg, key, env.now)
             && s.table.items[key].version == 2 && s.table.items[key].total == |FragmentFrame(frame, id).value|
    ensures var t := Receive(s, cfg, sender, FragmentText(FragmentFrame(frame, id).value[i]), env).state;
            Shrunk(s.table, t.table, R.Key(sender, id), i)
  {
    hide ParseFragment, FragmentFrame, FragmentText, ValidPeer, B.Agree, B.Spares, Unguarded, P.Recall, ConfirmReceipt;
    var key := R.Key(sender, id);
    var f := FragmentFrame(frame, id).value[i];
    BurstFragmentParses(frame, id, i);
    NotAnswered(s, cfg, key, env.now);
    var looked := Consulted(s, cfg, key, env.now);
    B.ConsultedOnly(s, cfg, key, env.now);
    B.SameTablesAgree(s, looked);
    B.SameSpares(s, looked, cfg, key, env.now);
    UnguardedAdds(looked, cfg, sender, FragmentText(f), f, env);
    MissingPartAdded(looked, cfg, sender, f, env.now);
  }

  lemma NotAnswered(s: State, cfg: Settings, key: Key, now: nat)
    requires B.Agree(s) && key in s.table.items
    ensures P.Recall(s.cache, cfg.limits, key, now).answer.None?
  {
    hide B.Mirrors, WellFormed;
  }

  // A fragment's effect on the reassembly table is that of adding it.
  lemma UnguardedAdds(s: State, cfg: Settings, peer: string, body: string, f: Fragment, env: Env)
    requires cfg.Valid() && ValidPeer(peer) && StartsWith(body, "Q2") && ParseFragment(body) == Ok(f)
    ensures Unguarded(s, cfg, peer, body, env).state.table == R.Add(s.table, cfg.bounds, peer, f, env.now).table
  {
    hide ParseFragment, ParseControl, ValidPeer, R.Add, Assembled, Settled, Noted;
    FragmentIsNoControl(body);
    var key := R.Key(peer, f.transactionId);
    var noted := s.(tracker := Noted(s.tracker, cfg, key, f, env.now));
    var added := R.Add(s.table, cfg.bounds, peer, f, env.now);
    if added.result.Complete? {
      AssembledTable(noted.(table := added.table), cfg, key, added.result.frame, env, CommitId(body));
    }
    SettledTable(Collect(noted, cfg, peer, f, env, CommitId(body)), cfg, key, env.now);
  }

  lemma AssembledTable(s: State, cfg: Settings, key: Key, frame: Bytes, env: Env, commitId: Option<string>)
    requires ValidPeer(key.peer)
    ensures Assembled(s, cfg, key, frame, env, commitId).state.table == s.table
  {
    hide P.Recall, C.DecodeFrame, IsRequest, ValidPeer, QueueAll, CallsignOf, IsSend, WasStored;
    hide SupersedeStale, P.Remember;
  }

  lemma SettledTable(r: Received, cfg: Settings, key: Key, now: nat)
    ensures Settled(r, cfg, key, now).state.table == r.state.table
  {
    hide IsSend, WasStored, CompactBatch, P.Recall, Delete, OneByteId;
  }

  // ------------------------------------------------------------ a whole round

  // Receiver `r` asks; the sender `s` holding the burst hears it and, at its
  // next permitted poll, sends every fragment asked for, and whatever it sends
  // of the burst from then on is those fragments and no others; each one that
  // arrives shrinks what `r` is missing.
  lemma RepairRound(r: State, rcfg: Settings, s: State, scfg: Settings, sender: string, receiver: string,
                    frame: Bytes, id: string, x: Packet, b: Burst, heard: Env, now: nat, back: Env)
    returns (missing: set<nat>)
    requires rcfg.Valid() && scfg.Valid() && ValidPeer(sender) && ValidPeer(receiver)
    requires B.Agree(r) && BP.Inv(s.sender, scfg.policy)
    requires FragmentFrame(frame, id).Ok? && b.fragments == FragmentFrame(frame, id).value
    requires InFlight(s.sender, receiver, id) == Some(b)
    requires b.attempts < scfg.policy.maxAttempts && MaySend(s.sender, receiver, scfg.policy, now) && !Raises(s, scfg, now)
    requires var key := R.Key(sender, id);
             && key in r.table.items && r.table.items[key].version == 2 && r.table.items[key].total == |b.fragments|
             && B.AsksFor(x, key, r.table.items[key]) && B.Spares(r, rcfg, key, back.now)
    ensures B.JustMissing(missing, r.table.items[R.Key(sender, id)])
    ensures var asked := Receive(s, scfg, receiver, x.body, heard);
            && asked.outcome == Ok(RepairRequested) && !Raises(asked.state, scfg, now)
            && BG.Governed(Poll(asked.state, scfg, now).state.sender, b.order, missing, |s.sender.journal|)
            && forall i :: i in missing ==>
                 && i < |b.fragments|
                 && Packet(receiver, FragmentText(b.fragments[i])) in Poll(asked.state, scfg, now).packets.value
                 && Shrunk(r.table, Receive(r, rcfg, sender, FragmentText(b.fragments[i]), back).state.table, R.Key(sender, id), i)
  {
    hide Receive, FragmentFrame, FragmentText, B.AsksFor, BP.Inv, B.Agree, B.Spares, BG.Governed, MaySend;
    hide ValidPeer, Shrunk, Poll, InFlight, BR.Repair;
    var key := R.Key(sender, id);
    FragmentLimit(frame, id);
    missing := RequestGoverns(s, scfg, receiver, key, r.table.items[key], x, b, heard);
    var t := Receive(s, scfg, receiver, x.body, heard).state;
    BR.RepairKeepsInv(s.sender, scfg.policy, receiver, id, missing);
    RepairKeepsRate(s.sender, receiver, id, missing);
    BR.InFlightIsActive(s.sender, receiver, id);
    SameRates(s.sender, t.sender, receiver, scfg.policy, now);
    RaisesByTracker(s, t, scfg, now);
    PolledState(t, scfg, now);
    BG.PollGoverned(t.sender, scfg.policy, now, b.order, missing, |s.sender.journal|);
    forall i | i in missing
      ensures i < |b.fragments|
      ensures Packet(receiver, FragmentText(b.fragments[i])) in Poll(t, scfg, now).packets.value
      ensures Shrunk(r.table, Receive(r, rcfg, sender, FragmentText(b.fragments[i]), back).state.table, key, i)
    {
      MissingIsSent(t, scfg, Repairing(b, missing), missing, now, i);
      ArrivalShrinksMissing(r, rcfg, sender, frame, id, i, back);
    }
  }

  lemma FragmentLimit(frame: Bytes, id: string)
    requires FragmentFrame(frame, id).Ok?
    ensures |FragmentFrame(frame, id).value| <= MAX_FRAGMENTS
  {
    hide FragmentFrame;
    BP.FragmentCount(frame, id);
  }

  // Whether a poll raises is a matter of what is being received.
  lemma RaisesByTracker(s: State, t: State, cfg: Settings, now: nat)
    requires t.tracker == s.tracker
    ensures Raises(t, cfg, now) <==> Raises(s, cfg, now)
  {
    hide PollSender, Nudge, Emitted, R.Expired, P.Aged;
  }

  lemma RepairKeepsRate(s: Sender, peer: string, id: string, missing: set<nat>)
    ensures BR.Repair(s, peer, id, missing).lastSend == s.lastSend
  {
    hide InFlight, Wanted, Replaced;
  }

  lemma SameRates(s: Sender, t: Sender, peer: string, p: Policy, now: nat)
    requires t.lastSend == s.lastSend
    ensures MaySend(s, peer, p, now) <==> MaySend(t, peer, p, now)
  {
  }
}
