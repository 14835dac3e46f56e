// What a poll of the selective adapter hands over to be sent: everything that
// was waiting, one repair request for each overdue transaction, and the packets
// of each burst it transmits.
module Polling {
  import opened Prelude
  import opened Ordered
  import opened Carriage
  import opened Control
  import opened Burst
  import opened Selective
  import opened SelectiveProofs
  import opened Nudging
  import BP = BurstProofs
  import BR = BurstRuns
  import L = Launching
  import TP = TwoParty
  import R = Reassembly
  import P = Replay

  // ------------------------------------------------------------ repair requests

  predicate Asks(x: Packet, t: Tracker, k: Key) {
    && k in t.items && EncodeMissing(k.transactionId, Unheard(t.items[k])).Ok?
    && x == MissingPacket(k, Unheard(t.items[k]))
  }

  // How long a transaction is waited for: less once its last fragment was seen.
  function Patience(cfg: Settings, sawFinal: bool): nat {
    if sawFinal then Min(cfg.finalGrace, cfg.repairGrace) else cfg.repairGrace
  }

  lemma PatienceIs(cfg: Settings, sawFinal: bool)
    ensures Grace(cfg, sawFinal) == Patience(cfg, sawFinal)
  {
  }

  // What becomes of a record: nothing before its deadline; then it goes if
  // nothing is missing, and else waits another grace.
  ghost predicate Prompted(t: Tracker, u: Tracker, cfg: Settings, k: Key, now: nat) {
    if k !in t.items then k !in u.items
    else if now < t.items[k].deadline then k in u.items && u.items[k] == t.items[k]
    else if Unheard(t.items[k]) == {} then k !in u.items
    else k in u.items && u.items[k] == t.items[k].(deadline := now + Patience(cfg, t.items[k].sawFinal))
  }

  lemma OnePrompted(t: Tracker, cfg: Settings, key: Key, now: nat)
    requires TrackerOk(t) && !NudgeOne(t, cfg, key, now).raised
    ensures var one := NudgeOne(t, cfg, key, now);
            && Prompted(t, one.tracker, cfg, key, now)
            && (if Overdue(t, key, now) then |one.packets| == 1 && Asks(one.packets[0], t, key) else one.packets == [])
  {
    hide Unheard, EncodeMissing, WellFormed;
  }

  ghost predicate AsksEach(packets: seq<Packet>, t: Tracker, asked: seq<Key>) {
    |packets| == |asked| && forall i :: 0 <= i < |asked| ==> Asks(packets[i], t, asked[i])
  }

  ghost predicate OverdueKeys(asked: seq<Key>, t: Tracker, keys: seq<Key>, now: nat, n: nat)
    requires n <= |keys|
  {
    && Distinct(asked)
    && (forall k :: k in asked <==> k in keys[..n] && Overdue(t, k, now))
  }

  lemma {:induction false} NudgedIs(t: Tracker, cfg: Settings, keys: seq<Key>, now: nat, n: nat) returns (asked: seq<Key>)
    requires TrackerOk(t) && n <= |keys| && Distinct(keys) && !Nudge(t, cfg, keys, now, n).raised
    ensures var some := Nudge(t, cfg, keys, now, n);
            && OverdueKeys(asked, t, keys, now, n) && AsksEach(some.packets, t, asked)
            && (forall j :: 0 <= j < n ==> Prompted(t, some.tracker, cfg, keys[j], now))
            && (forall k :: k !in keys[..n] ==> SameRecord(t, some.tracker, k))
  {
    hide TrackerOk, NudgeOne, Asks, Overdue, Prompted, Stuck;
    asked := [];
    if n > 0 {
      var before := Nudge(t, cfg, keys, now, n - 1);
      asked := NudgedIs(t, cfg, keys, now, n - 1);
      NudgeFrame(t, cfg, keys, now, n - 1);
      var key := keys[n - 1];
      assert keys[..n] == keys[..n - 1] + [key];
      NewKey(keys, n);
      var one := NudgeOne(before.tracker, cfg, key, now);
      NudgeOneFrame(before.tracker, cfg, key, now);
      OnePrompted(before.tracker, cfg, key, now);
      SameStuck(t, before.tracker, key, now);
      SamePrompted(t, before.tracker, one, cfg, key, now);
      forall j | 0 <= j < n
        ensures Prompted(t, one.tracker, cfg, keys[j], now)
      {
        if j < n - 1 {
          PromptedStays(t, before.tracker, one.tracker, cfg, keys[j], now);
        }
      }
      forall k | k !in keys[..n]
        ensures SameRecord(t, one.tracker, k)
      {
        assert SameRecord(t, before.tracker, k) && SameRecord(before.tracker, one.tracker, k);
      }
      if Overdue(t, key, now) {
        asked := asked + [key];
      }
    }
  }

  lemma NewKey(keys: seq<Key>, n: nat)
    requires Distinct(keys) && 0 < n <= |keys|
    ensures keys[n - 1] !in keys[..n - 1]
  {
  }

  lemma SamePrompted(t: Tracker, u: Tracker, one: Nudged, cfg: Settings, key: Key, now: nat)
    requires SameRecord(t, u, key) && Prompted(u, one.tracker, cfg, key, now)
    requires if Overdue(u, key, now) then |one.packets| == 1 && Asks(one.packets[0], u, key) else one.packets == []
    ensures Prompted(t, one.tracker, cfg, key, now)
    ensures if Overdue(t, key, now) then |one.packets| == 1 && Asks(one.packets[0], t, key) else one.packets == []
  {
    hide Unheard, EncodeMissing;
  }

  lemma PromptedStays(t: Tracker, u: Tracker, v: Tracker, cfg: Settings, key: Key, now: nat)
    requires Prompted(t, u, cfg, key, now) && SameRecord(u, v, key)
    ensures Prompted(t, v, cfg, key, now)
  {
    hide Unheard;
  }

  // ----------------------------------------------------------------- the bursts

  // A packet is emitted if and only if some transmission includes its fragment.
  lemma {:induction false} EmittedAre(journal: seq<Entry>, start: nat)
    ensures forall x :: x in Emitted(journal, start) <==> exists k: nat :: start <= k < |journal| && x in EntryPackets(journal[k])
    decreases |journal|
  {
    hide EntryPackets;
    if |journal| > start {
      var shorter := journal[..|journal| - 1];
      EmittedAre(shorter, start);
      forall x | x in Emitted(journal, start)
        ensures exists k: nat :: start <= k < |journal| && x in EntryPackets(journal[k])
      {
        if x in Emitted(shorter, start) {
          var k: nat :| start <= k < |shorter| && x in EntryPackets(shorter[k]);
          assert journal[k] == shorter[k];
        } else {
          var last: nat := |journal| - 1;
          assert x in EntryPackets(journal[last]);
        }
      }
      forall x | exists k: nat :: start <= k < |journal| && x in EntryPackets(journal[k])
        ensures x in Emitted(journal, start)
      {
        var k: nat :| start <= k < |journal| && x in EntryPackets(journal[k]);
        if k < |shorter| {
          assert shorter[k] == journal[k];
        }
      }
    }
  }

  lemma {:induction false} EmittedAround(journal: seq<Entry>, start: nat, k: nat) returns (before: seq<Packet>, after: seq<Packet>)
    requires start <= k < |journal|
    ensures Emitted(journal, start) == before + EntryPackets(journal[k]) + after
    decreases |journal|
  {
    hide EntryPackets;
    var last := |journal| - 1;
    if k == last {
      before, after := Emitted(journal[..last], start), [];
    } else {
      var inner;
      before, inner := EmittedAround(journal[..last], start, k);
      after := inner + EntryPackets(journal[last]);
    }
  }

  // The packets of a burst, in order.
  function PacketsOfAll(b: Burst): seq<Packet> {
    seq(|b.fragments|, i requires 0 <= i < |b.fragments| => Packet(b.peer, FragmentText(b.fragments[i])))
  }

  lemma {:induction false} AllPackets(b: Burst, n: nat)
    requires n <= |b.fragments|
    ensures PacketsOf(b, All(b), n) == PacketsOfAll(b)[..n]
  {
    hide FragmentText;
    if n > 0 {
      AllPackets(b, n - 1);
      assert n - 1 in All(b);
    }
  }

  // -------------------------------------------------------------- a whole poll

  // A poll that does not raise returns what was waiting, all of it and first,
  // then one repair request for each overdue transaction and no others, then
  // what the bursts put on the air; nothing waits any more, and each record is
  // rescheduled, dropped or left alone.
  lemma PollReturns(s: State, cfg: Settings, now: nat) returns (requests: seq<Packet>, asked: seq<Key>)
    requires TrackerOk(s.tracker) && !Raises(s, cfg, now)
    ensures var r := Poll(s, cfg, now);
            var t := PollSender(s.sender, cfg.policy, now);
            && r.packets == Ok(s.immediate + requests + Emitted(t.journal, |s.sender.journal|))
            && r.state.sender == t && r.state.immediate == [] && r.state.core == s.core
            && AsksEach(requests, s.tracker, asked) && Distinct(asked)
            && (forall k :: k in asked <==> Overdue(s.tracker, k, now))
            && (forall k :: Prompted(s.tracker, r.state.tracker, cfg, k, now))
  {
    hide Nudge, PollSender, Emitted, R.Expired, P.Aged, Asks, Prompted, Overdue;
    var keys := s.tracker.order;
    var nudged := Nudge(s.tracker, cfg, keys, now, |keys|);
    asked := NudgedIs(s.tracker, cfg, keys, now, |keys|);
    requests := nudged.packets;
    assert keys[..|keys|] == keys;
    forall k
      ensures Prompted(s.tracker, nudged.tracker, cfg, k, now)
    {
      if k in keys {
        var j :| 0 <= j < |keys| && keys[j] == k;
        assert Prompted(s.tracker, nudged.tracker, cfg, keys[j], now);
      } else {
        Untracked(s.tracker, nudged.tracker, cfg, k, now);
      }
    }
    forall k | Overdue(s.tracker, k, now)
      ensures k in keys
    {
      OverdueTracked(s.tracker, k, now);
    }
  }

  lemma Untracked(t: Tracker, u: Tracker, cfg: Settings, k: Key, now: nat)
    requires TrackerOk(t) && k !in t.order && SameRecord(t, u, k)
    ensures Prompted(t, u, cfg, k, now)
  {
    hide Unheard;
  }

  lemma OverdueTracked(t: Tracker, k: Key, now: nat)
    requires TrackerOk(t) && Overdue(t, k, now)
    ensures k in t.order
  {
    hide Unheard;
  }

  // A queued burst whose turn has come is handed over whole: its packets, one
  // for each fragment and in order, stand together among those returned, and
  // it is in flight. Any other queued burst stays as it is.
  lemma QueuedBurstIsSent(s: State, cfg: Settings, b: Burst, now: nat) returns (before: seq<Packet>, after: seq<Packet>)
    requires cfg.Valid() && TrackerOk(s.tracker) && !Raises(s, cfg, now)
    requires BP.Inv(s.sender, cfg.policy) && b in s.sender.queue && BR.Accounted(s.sender, cfg.policy, b.order)
    ensures var r := Poll(s, cfg, now);
            if L.Turn(s.sender, cfg.policy, b, now) then
              && r.packets == Ok(before + PacketsOfAll(b) + after)
              && L.Begun(b, cfg.policy, now) in r.state.sender.active
              && (forall x :: x in r.state.sender.queue ==> x.order != b.order)
              && L.SentOnceMore(s.sender, r.state.sender, b.order)
            else b in r.state.sender.queue && L.NotSent(s.sender, r.state.sender, b.order)
  {
    hide BP.Inv, BR.Accounted, PollSender, Poll, Emitted, L.Turn, BR.Sends, TrackerOk, Raises, AsksEach, Prompted;
    hide Overdue, PacketsOfAll, PacketsOf;
    before, after := [], [];
    var requests, asked := PollReturns(s, cfg, now);
    L.QueuedIsHandled(s.sender, cfg.policy, b, now);
    if L.Turn(s.sender, cfg.policy, b, now) {
      var c := L.Begun(b, cfg.policy, now);
      var journal := PollSender(s.sender, cfg.policy, now).journal;
      var k: nat :| |s.sender.journal| <= k < |journal| && journal[k] == Transmitted(c, All(b), now);
      before, after := EmittedAround(journal, |s.sender.journal|, k);
      WholeEntry(b, c, journal[k], now);
      Regrouped(s.immediate + requests, before, PacketsOfAll(b), after);
      before := s.immediate + requests + before;
    }
  }

  lemma Regrouped(a: seq<Packet>, b: seq<Packet>, c: seq<Packet>, d: seq<Packet>)
    ensures a + (b + c + d) == (a + b) + c + d
  {
  }

  lemma WholeEntry(b: Burst, c: Burst, e: Entry, now: nat)
    requires c.fragments == b.fragments && c.peer == b.peer && e == Transmitted(c, All(b), now)
    ensures EntryPackets(e) == PacketsOfAll(b)
  {
    hide FragmentText, PacketsOf;
    AllPackets(c, |c.fragments|);
    assert PacketsOfAll(c)[..|c.fragments|] == PacketsOfAll(b);
  }

  // A burst in flight that is due, has attempts left and may be sent again: what
  // was asked of it, or else all of it, is among the packets returned.
  lemma RepeatedBurstIsSent(s: State, cfg: Settings, b: Burst, now: nat, i: nat)
    requires cfg.Valid() && TrackerOk(s.tracker) && !Raises(s, cfg, now)
    requires BP.Inv(s.sender, cfg.policy) && b in s.sender.active && BR.Accounted(s.sender, cfg.policy, b.order)
    requires L.Due(b, now) && b.attempts < cfg.policy.maxAttempts && L.RateAllows(s.sender, b.peer, cfg.policy, now)
    requires i in L.Wants(b) && i < |b.fragments|
    ensures Packet(b.peer, FragmentText(b.fragments[i])) in Poll(s, cfg, now).packets.value
  {
    hide BP.Inv, BR.Accounted, PollSender, Poll, Emitted, BR.Sends, TrackerOk, Raises, AsksEach, Prompted;
    hide Overdue, L.Wants, L.RateAllows, FragmentText, PacketsOf;
    var requests, asked := PollReturns(s, cfg, now);
    L.InFlightIsHandled(s.sender, cfg.policy, b, now);
    var journal := PollSender(s.sender, cfg.policy, now).journal;
    var c := L.Repeated(b, cfg.policy, now);
    var k: nat :| |s.sender.journal| <= k < |journal| && journal[k] == Transmitted(c, L.Wants(b), now);
    TP.PacketIncluded(c, L.Wants(b), i, |c.fragments|);
    TP.EntryEmitted(journal, |s.sender.journal|, k, Packet(b.peer, FragmentText(b.fragments[i])));
  }
}
