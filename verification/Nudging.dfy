// Which repair requests a poll sends, and when it raises instead: a Q1 fragment
// may carry a transaction id too wide for the control messages, and no repair
// request for it can be encoded.
module Nudging {
  import opened Prelude
  import opened Ordered
  import opened Carriage
  import opened Control
  import opened Burst
  import opened Selective
  import opened SelectiveProofs
  import B = Bookkeeping
  import R = Reassembly
  import P = Replay
  import C = Codec
  import Core

  // What every reachable state's repair records look like.
  ghost predicate TrackerOk(t: Tracker) {
    WellFormed(t) && forall k :: k in t.items ==> t.items[k].total <= MAX_FRAGMENTS
  }

  // The record of `key` lacks fragments that no request can ask for.
  predicate Unaskable(t: Tracker, key: Key) {
    key in t.items && Unheard(t.items[key]) != {} && !OneByteId(key)
  }

  predicate Stuck(t: Tracker, key: Key, now: nat) {
    Unaskable(t, key) && now >= t.items[key].deadline
  }

  predicate Overdue(t: Tracker, key: Key, now: nat) {
    key in t.items && now >= t.items[key].deadline && Unheard(t.items[key]) != {}
  }

  // ------------------------------------------------------------------ nudging

  lemma UnencodableIsWide(key: Key, p: Progress)
    requires p.total <= MAX_FRAGMENTS && Unheard(p) != {}
    ensures EncodeMissing(key.transactionId, Unheard(p)).Ok? <==> OneByteId(key)
  {
    hide MaskBelow, TransactionByte;
  }

  // One record is looked at: the others stay as they are, and so does this one
  // unless it was due.
  lemma NudgeOneFrame(t: Tracker, cfg: Settings, key: Key, now: nat)
    requires TrackerOk(t)
    ensures var one := NudgeOne(t, cfg, key, now);
            && TrackerOk(one.tracker)
            && (one.raised <==> Stuck(t, key, now))
            && (Unaskable(t, key) ==> one.tracker == t)
            && (forall k :: k != key ==> SameRecord(t, one.tracker, k))
            && (Overdue(t, key, now) && !one.raised ==> OneByteId(key) && one.packets == [MissingPacket(key, Unheard(t.items[key]))])
  {
    hide Unheard, EncodeMissing, OneByteId, WellFormed;
    if key in t.items && now >= t.items[key].deadline {
      var p := t.items[key];
      if Unheard(p) == {} {
        RestrictKeepsForm(t, t.items.Keys - {key});
      } else {
        UnencodableIsWide(key, p);
        B.PutForm(t, key, p.(deadline := now + Grace(cfg, p.sawFinal)));
      }
    }
  }

  ghost predicate SameRecord(t: Tracker, u: Tracker, k: Key) {
    (k in u.items <==> k in t.items) && (k in t.items ==> u.items[k] == t.items[k])
  }

  lemma SameStuck(t: Tracker, u: Tracker, k: Key, now: nat)
    requires SameRecord(t, u, k)
    ensures (Unaskable(u, k) <==> Unaskable(t, k)) && (Stuck(u, k, now) <==> Stuck(t, k, now))
    ensures Overdue(u, k, now) <==> Overdue(t, k, now)
  {
    hide Unheard, OneByteId;
  }

  ghost predicate StuckAmong(t: Tracker, keys: seq<Key>, now: nat, n: nat)
    requires n <= |keys|
  {
    exists j :: 0 <= j < n && Stuck(t, keys[j], now)
  }

  lemma {:induction false} NudgeFrame(t: Tracker, cfg: Settings, keys: seq<Key>, now: nat, n: nat)
    requires TrackerOk(t) && n <= |keys| && Distinct(keys)
    ensures var some := Nudge(t, cfg, keys, now, n);
            && TrackerOk(some.tracker)
            && (some.raised <==> StuckAmong(t, keys, now, n))
            && (forall j :: n <= j < |keys| ==> SameRecord(t, some.tracker, keys[j]))
            && (forall k :: Unaskable(t, k) ==> SameRecord(t, some.tracker, k))
  {
    hide TrackerOk, NudgeOne, Stuck, Unaskable;
    if n == 0 {
    } else {
      var before := Nudge(t, cfg, keys, now, n - 1);
      NudgeFrame(t, cfg, keys, now, n - 1);
      if !before.raised {
        NudgeOneFrame(before.tracker, cfg, keys[n - 1], now);
        SameStuck(t, before.tracker, keys[n - 1], now);
        var after := Nudge(t, cfg, keys, now, n).tracker;
        forall k | SameRecord(t, before.tracker, k) && (k != keys[n - 1] || after == before.tracker)
          ensures SameRecord(t, after, k)
        {
          assert k != keys[n - 1] ==> SameRecord(before.tracker, after, k);
        }
      }
    }
  }

  // A poll raises exactly when some overdue record has an id too wide for N2.
  lemma PollRaisesExactly(s: State, cfg: Settings, now: nat)
    requires TrackerOk(s.tracker)
    ensures Raises(s, cfg, now) <==> exists k :: Stuck(s.tracker, k, now)
  {
    hide Nudge, PollSender, Emitted, R.Expired, P.Aged, Stuck;
    var keys := s.tracker.order;
    NudgeFrame(s.tracker, cfg, keys, now, |keys|);
    if k :| Stuck(s.tracker, k, now) {
      StuckIsTracked(s.tracker, k, now);
      var j :| 0 <= j < |keys| && keys[j] == k;
      assert StuckAmong(s.tracker, keys, now, |keys|);
    }
  }

  lemma StuckIsTracked(t: Tracker, k: Key, now: nat)
    requires TrackerOk(t) && Stuck(t, k, now)
    ensures k in t.order
  {
    hide Unheard, OneByteId;
  }

  // Then it sends nothing, sweeps nothing and loses what was waiting.
  lemma RaisedPollIsInert(s: State, cfg: Settings, now: nat)
    requires Raises(s, cfg, now)
    ensures var t := Poll(s, cfg, now).state;
            t.immediate == [] && t == s.(tracker := t.tracker, immediate := [])
  {
    hide Nudge, PollSender, Emitted, R.Expired, P.Aged;
  }

  // Otherwise every overdue transaction is asked for all that it lacks.
  lemma OverdueIsAsked(s: State, cfg: Settings, now: nat, k: Key)
    requires TrackerOk(s.tracker) && !Raises(s, cfg, now) && Overdue(s.tracker, k, now)
    ensures OneByteId(k) && EncodeMissing(k.transactionId, Unheard(s.tracker.items[k])).Ok?
    ensures MissingPacket(k, Unheard(s.tracker.items[k])) in Poll(s, cfg, now).packets.value
  {
    hide Nudge, PollSender, Emitted, R.Expired, P.Aged, Unheard, OneByteId, EncodeMissing;
    var keys := s.tracker.order;
    var j :| 0 <= j < |keys| && keys[j] == k;
    OverdueNudged(s.tracker, cfg, keys, now, j, |keys|);
    UnencodableIsWide(k, s.tracker.items[k]);
  }

  lemma {:induction false} OverdueNudged(t: Tracker, cfg: Settings, keys: seq<Key>, now: nat, j: nat, n: nat)
    requires TrackerOk(t) && j < n <= |keys| && Distinct(keys) && Overdue(t, keys[j], now)
    requires !Nudge(t, cfg, keys, now, n).raised
    ensures OneByteId(keys[j]) && EncodeMissing(keys[j].transactionId, Unheard(t.items[keys[j]])).Ok?
    ensures MissingPacket(keys[j], Unheard(t.items[keys[j]])) in Nudge(t, cfg, keys, now, n).packets
  {
    hide TrackerOk, NudgeOne, Overdue, OneByteId, EncodeMissing, Unheard, Stuck;
    var before := Nudge(t, cfg, keys, now, n - 1);
    if j < n - 1 {
      OverdueNudged(t, cfg, keys, now, j, n - 1);
    } else {
      NudgeFrame(t, cfg, keys, now, n - 1);
      NudgeOneFrame(before.tracker, cfg, keys[j], now);
      SameStuck(t, before.tracker, keys[j], now);
      OverdueRecord(t, before.tracker, keys[j], now);
    }
  }

  lemma OverdueRecord(t: Tracker, u: Tracker, k: Key, now: nat)
    requires TrackerOk(t) && SameRecord(t, u, k) && Overdue(t, k, now)
    ensures k in t.items && k in u.items && u.items[k] == t.items[k]
    ensures EncodeMissing(k.transactionId, Unheard(t.items[k])).Ok? <==> OneByteId(k)
  {
    hide Unheard, OneByteId, EncodeMissing;
    UnencodableIsWide(k, t.items[k]);
  }

  // ---------------------------------------------------------------- whole runs

  // The event is a fragment of transaction `key`.
  predicate Mentions(e: Event, key: Key) {
    e.Arrive? && ParseFragment(e.body).Ok? && key == R.Key(e.peer, ParseFragment(e.body).value.transactionId)
  }

  // Handling one fragment notes it, forgets its transaction, or does both.
  predicate Touched(t: Tracker, u: Tracker, cfg: Settings, key: Key, f: Fragment, now: nat) {
    var noted := Noted(t, cfg, key, f, now);
    u == noted || u == Delete(noted, key) || u == Delete(t, key)
  }

  lemma AssembledTracker(s: State, cfg: Settings, key: Key, frame: Bytes, env: Env, commitId: Option<string>)
    requires ValidPeer(key.peer)
    ensures Assembled(s, cfg, key, frame, env, commitId).state.tracker == s.tracker
  {
    hide P.Recall, C.DecodeFrame, IsRequest, ValidPeer, QueueAll, CallsignOf, IsSend, WasStored;
    hide SupersedeStale, P.Remember, Core.HandleFrame;
  }

  lemma ConfirmTracker(s: State, cfg: Settings, key: Key, now: nat)
    requires OneByteId(key)
    ensures ConfirmReceipt(s, cfg, key, now).tracker == s.tracker
  {
    hide IsSend, WasStored, CompactBatch, P.Recall, OneByteId;
  }

  lemma HandleFragmentTracker(s: State, cfg: Settings, peer: string, f: Fragment, env: Env, commitId: Option<string>)
    requires cfg.Valid() && ValidPeer(peer)
    ensures Touched(s.tracker, HandleFragment(s, cfg, peer, f, env, commitId).state.tracker, cfg, R.Key(peer, f.transactionId), f, env.now)
  {
    hide Assembled, R.Add, Noted, ValidPeer, ConfirmReceipt, OneByteId, Delete;
    var key := R.Key(peer, f.transactionId);
    var noted := s.(tracker := Noted(s.tracker, cfg, key, f, env.now));
    var added := R.Add(s.table, cfg.bounds, peer, f, env.now);
    if added.result.Complete? {
      AssembledTracker(noted.(table := added.table), cfg, key, added.result.frame, env, commitId);
    }
    if OneByteId(key) {
      ConfirmTracker(Collect(noted, cfg, peer, f, env, commitId).state, cfg, key, env.now);
    }
  }

  lemma ReceiveTracker(s: State, cfg: Settings, peer: string, body: string, env: Env)
    requires cfg.Valid()
    ensures var t := Receive(s, cfg, peer, body, env).state.tracker;
            t == s.tracker
            || (ParseFragment(body).Ok?
                && var f := ParseFragment(body).value;
                   Touched(s.tracker, t, cfg, R.Key(peer, f.transactionId), f, env.now))
  {
    hide ParseControl, ParseFragment, HandleFragment, HandleControl, ValidPeer, CommitId, IsPacketAck;
    hide P.Recall, ConfirmReceipt;
    hide OneByteId, Delete, Noted;
    if ValidPeer(peer) && ParseFragment(body).Ok? {
      var f := ParseFragment(body).value;
      var key := R.Key(peer, f.transactionId);
      var looked := Consulted(s, cfg, key, env.now);
      HandleFragmentTracker(looked, cfg, peer, f, env, CommitId(body));
      if OneByteId(key) {
        ConfirmTracker(Forgotten(looked, key), cfg, key, env.now);
      }
    }
    if ParseControl(body).Some? {
      ControlOrFragment(body);
      B.ControlTables(s, peer, ParseControl(body).value);
    }
  }

  lemma TouchedFrame(t: Tracker, u: Tracker, cfg: Settings, key: Key, f: Fragment, now: nat)
    requires TrackerOk(t) && f.total <= MAX_FRAGMENTS && Touched(t, u, cfg, key, f, now)
    ensures TrackerOk(u) && forall k :: k != key ==> SameRecord(t, u, k)
  {
    hide Noted, WellFormed;
    var noted := Noted(t, cfg, key, f, now);
    B.NotedOthers(t, cfg, key, f, now);
    RestrictKeepsForm(noted, noted.items.Keys - {key});
    RestrictKeepsForm(t, t.items.Keys - {key});
  }

  lemma StepTracks(s: State, cfg: Settings, e: Event)
    requires cfg.Valid() && ValidEvent(e) && TrackerOk(s.tracker)
    ensures TrackerOk(Step(s, cfg, e).tracker)
    ensures forall k :: Unaskable(s.tracker, k) && !Mentions(e, k) ==> SameRecord(s.tracker, Step(s, cfg, e).tracker, k)
  {
    hide Receive, ParseFragment, Nudge, PollSender, Emitted, R.Expired, P.Aged, Unaskable, TrackerOk;
    hide QueueFrame, C.EncodeFrame;
    match e
    case Arrive(peer, body, env) =>
      ReceiveTracker(s, cfg, peer, body, env);
      var t := Step(s, cfg, e).tracker;
      if t != s.tracker {
        B.ParsedInRange(body);
        var f := ParseFragment(body).value;
        TouchedFrame(s.tracker, t, cfg, R.Key(peer, f.transactionId), f, env.now);
      }
    case Tick(now) =>
      TickTracks(s, cfg, now);
    case Route(endpoint, message) =>
  }

  lemma TickTracks(s: State, cfg: Settings, now: nat)
    requires TrackerOk(s.tracker)
    ensures TrackerOk(Poll(s, cfg, now).state.tracker)
    ensures forall k :: Unaskable(s.tracker, k) ==> SameRecord(s.tracker, Poll(s, cfg, now).state.tracker, k)
  {
    hide Nudge, PollSender, Emitted, R.Expired, P.Aged;
    NudgeFrame(s.tracker, cfg, s.tracker.order, now, |s.tracker.order|);
  }

  lemma {:induction false} RunTracks(cfg: Settings, core: Core.State, events: seq<Event>, n: nat)
    requires Valid(cfg, events) && n <= |events|
    ensures TrackerOk(After(cfg, core, events, n).tracker)
  {
    hide Step, TrackerOk;
    if n == 0 {
      NothingTracked();
    } else {
      RunTracks(cfg, core, events, n - 1);
      StepTracks(After(cfg, core, events, n - 1), cfg, events[n - 1]);
    }
  }

  lemma NothingTracked()
    ensures TrackerOk(Empty())
  {
  }

  // On every run a poll raises if and only if some overdue transaction that
  // still lacks fragments has an id of more than one byte.
  lemma RaisesExactly(cfg: Settings, core: Core.State, events: seq<Event>, n: nat, now: nat)
    requires Valid(cfg, events) && n <= |events|
    ensures var s := After(cfg, core, events, n);
            Raises(s, cfg, now) <==> exists k :: Stuck(s.tracker, k, now)
  {
    hide Step, TrackerOk, Stuck, Raises;
    RunTracks(cfg, core, events, n);
    PollRaisesExactly(After(cfg, core, events, n), cfg, now);
  }

  lemma {:induction false} StaysStuck(cfg: Settings, core: Core.State, events: seq<Event>, i: nat, n: nat, k: Key, now: nat)
    requires Valid(cfg, events) && i <= n <= |events| && Stuck(After(cfg, core, events, i).tracker, k, now)
    requires forall j :: i <= j < n ==> !Mentions(events[j], k)
    ensures Stuck(After(cfg, core, events, n).tracker, k, now)
    decreases n - i
  {
    hide Step, TrackerOk, Unheard, OneByteId, Mentions;
    if i < n {
      StaysStuck(cfg, core, events, i, n - 1, k, now);
      RunTracks(cfg, core, events, n - 1);
      StepTracks(After(cfg, core, events, n - 1), cfg, events[n - 1]);
      SameStuck(After(cfg, core, events, n - 1).tracker, After(cfg, core, events, n).tracker, k, now);
    }
  }

  // Once a poll has raised over a record, so does every later poll, however
  // late, until another fragment of that transaction arrives: meanwhile nothing
  // is sent and nothing expires.
  lemma RaisesUntilHeard(cfg: Settings, core: Core.State, events: seq<Event>, i: nat, n: nat, k: Key, now: nat, later: nat)
    requires Valid(cfg, events) && i <= n <= |events| && now <= later
    requires Stuck(After(cfg, core, events, i).tracker, k, now)
    requires forall j :: i <= j < n ==> !Mentions(events[j], k)
    ensures Raises(After(cfg, core, events, n), cfg, later)
  {
    hide After, Unheard, OneByteId, Mentions, Raises;
    StaysStuck(cfg, core, events, i, n, k, now);
    assert Stuck(After(cfg, core, events, n).tracker, k, later);
    RaisesExactly(cfg, core, events, n, later);
  }

  // ------------------------------------------------------- it does come to this

  // A first fragment of two or more, heard by an adapter that has heard nothing.
  lemma FirstFragment(cfg: Settings, core: Core.State, peer: string, f: Fragment, env: Env)
    requires cfg.Valid() && ValidPeer(peer) && ValidQ1(f) && f.total >= 2
    ensures Body(f).Ok?
    ensures var key := R.Key(peer, f.transactionId);
            var t := Receive(Start(core), cfg, peer, Body(f).value, env).state;
            && Receive(Start(core), cfg, peer, Body(f).value, env).outcome == Ok(FragmentHeld)
            && t.tracker == Noted(Empty(), cfg, key, f, env.now)
            && key in t.table.items && t.table.items[key].lastSeen == env.now
  {
    hide ParseFragment, ParseControl, Body, ValidPeer, Noted, CommitId, R.Prepared;
    var key := R.Key(peer, f.transactionId);
    Q1RoundTrip(f);
    var body := Body(f).value;
    if ParseControl(body).Some? {
      ControlOrFragment(body);
    }
    FirstAdded(cfg, peer, f, env.now);
  }

  lemma FirstAdded(cfg: Settings, peer: string, f: Fragment, now: nat)
    requires cfg.Valid() && ValidQ1(f) && f.total >= 2
    ensures var key := R.Key(peer, f.transactionId);
            var r := R.Add(Empty(), cfg.bounds, peer, f, now);
            r.result.Waiting? && key in r.table.items && r.table.items[key].lastSeen == now
  {
    var key := R.Key(peer, f.transactionId);
    var ready: R.Table := R.Prepared(Empty(), cfg.bounds, key, now);
    assert ready.items == map[];
    var parts := map[f.index := R.Text(f.data)];
    assert |parts| == 1;
  }

  // One Q1 fragment of several, its id over 255, stops the adapter for good:
  // from its grace period on every poll raises until its transaction is heard
  // of again.
  lemma OneFragmentStops(cfg: Settings, core: Core.State, peer: string, f: Fragment, env: Env, now: nat)
    requires cfg.Valid() && ValidPeer(peer) && ValidQ1(f) && f.total >= 2 && TransactionByte(f.transactionId).Err?
    requires now >= env.now + Grace(cfg, f.index == f.total - 1)
    ensures Body(f).Ok?
    ensures var s := Receive(Start(core), cfg, peer, Body(f).value, env).state;
            Stuck(s.tracker, R.Key(peer, f.transactionId), now) && Raises(s, cfg, now)
  {
    hide ValidPeer, Body, Receive, TransactionByte, Raises, Unheard;
    var key := R.Key(peer, f.transactionId);
    FirstFragment(cfg, core, peer, f, env);
    var s := Receive(Start(core), cfg, peer, Body(f).value, env).state;
    StepTracks(Start(core), cfg, Arrive(peer, Body(f).value, env));
    NothingTracked();
    OneHeard(s.tracker.items[key], f);
    assert Stuck(s.tracker, key, now);
    PollRaisesExactly(s, cfg, now);
  }

  lemma OneHeard(p: Progress, f: Fragment)
    requires p.total == f.total >= 2 && p.received == {f.index}
    ensures Unheard(p) != {}
  {
    var other: nat := if f.index == 0 then 1 else 0;
    B.UnheardIs(p);
    assert other in Unheard(p);
  }

  // And without any such id: a record outlives its entry as soon as a poll
  // finds a first fragment that was never followed up stale.
  lemma ExpiryIsOutlived(cfg: Settings, core: Core.State, peer: string, f: Fragment, env: Env, now: nat)
    requires cfg.Valid() && ValidPeer(peer) && ValidQ1(f) && f.total >= 2 && TransactionByte(f.transactionId).Ok?
    requires now - env.now >= cfg.bounds.ttl
    ensures Body(f).Ok?
    ensures var held := Receive(Start(core), cfg, peer, Body(f).value, env).state;
            B.Agree(held) && !B.Agree(Poll(held, cfg, now).state)
  {
    hide ValidPeer, Body, Receive, TransactionByte, Raises, Unheard, B.Agree, ParseFragment, Noted, P.Recall;
    var key := R.Key(peer, f.transactionId);
    FirstFragment(cfg, core, peer, f, env);
    Q1RoundTrip(f);
    NothingAgrees(cfg, core, key, f, env.now);
    B.ReceiveAgreesExactly(Start(core), cfg, peer, Body(f).value, env);
    var held := Receive(Start(core), cfg, peer, Body(f).value, env).state;
    B.NotedOthers(Empty(), cfg, key, f, env.now);
    StepTracks(Start(core), cfg, Arrive(peer, Body(f).value, env));
    NothingTracked();
    PollRaisesExactly(held, cfg, now);
    assert !Raises(held, cfg, now);
    assert R.Stale(held.table.items[key], cfg.bounds.ttl, now);
    B.PollAgreesUnlessStale(held, cfg, now);
  }

  lemma NothingAgrees(cfg: Settings, core: Core.State, key: Key, f: Fragment, now: nat)
    requires cfg.Valid()
    ensures B.Agree(Start(core)) && WellFormed(Start(core).cache) && B.Keeps(Start(core), cfg, key, f, now)
  {
  }
}
