// The repair bookkeeping agrees with the reassembler, so repair requests ask
// for exactly the fragments not held.
module Bookkeeping {
  import opened Prelude
  import opened Text
  import opened Ordered
  import opened Carriage
  import opened Control
  import opened Burst
  import opened Selective
  import opened SelectiveProofs
  import R = Reassembly
  import RRP = ReassemblyProofs
  import P = Replay
  import RP = ReplayProofs
  import C = Codec
  import Core
  import AO = AtMostOnce

  // ------------------------------------------------------------------ add

  // What adding a fragment does to its own entry.
  lemma PlacedEntry(t: R.Table, b: R.Bounds, key: Key, entry: R.Assembly, f: Fragment, now: int)
    requires WellFormed(t)
    ensures var r := R.Placed(t, b, key, entry, f, now);
            && (!r.result.Waiting? ==> key !in r.table.items)
            && (r.result.Waiting? ==>
                  && key in r.table.items
                  && r.table.items[key].total == entry.total
                  && r.table.items[key].parts.Keys == entry.parts.Keys + {f.index}
                  && |r.table.items[key].parts| != entry.total)
  {
    hide R.PartOf, R.Assembled, R.Recorded, Delete;
    DeletedItems(t, key);
    var part := R.PartOf(f);
    if part.Some? {
      var grown := R.Grown(entry, f.index, part.value, now);
      RecordedItems(t, key, grown);
      AssembledEnds(grown, b);
      DeletedItems(R.Recorded(t, key, grown), key);
    }
  }

  lemma AssembledEnds(a: R.Assembly, b: R.Bounds)
    ensures !R.Assembled(a, b).Waiting?
  {
    hide C.DecodeFrameWithFlags, R.JoinBytes, R.JoinText;
  }

  lemma DeletedItems<V>(d: OrderedDict<Key, V>, key: Key)
    ensures key !in Delete(d, key).items
  {
  }

  lemma RecordedItems(t: R.Table, key: Key, grown: R.Assembly)
    ensures R.Recorded(t, key, grown).items == t.items[key := grown]
  {
  }

  ghost predicate EntryAfter(ready: R.Table, f: Fragment, key: Key, r: R.Added) {
    && (!r.result.Waiting? ==> key !in r.table.items)
    && (r.result.Waiting? ==>
          && key in r.table.items
          && r.table.items[key].total == f.total
          && r.table.items[key].parts.Keys == (if key in ready.items then ready.items[key].parts.Keys else {}) + {f.index}
          && |r.table.items[key].parts| != f.total
          && (key in ready.items ==> ready.items[key].total == f.total))
  }

  lemma AddEntry(t: R.Table, b: R.Bounds, peer: string, f: Fragment, now: int)
    requires b.Valid() && WellFormed(t)
    ensures var key := R.Key(peer, f.transactionId);
            EntryAfter(R.Prepared(t, b, key, now), f, key, R.Add(t, b, peer, f, now))
  {
    hide R.Prepared, WellFormed, R.Placed;
    var key := R.Key(peer, f.transactionId);
    RRP.PreparedIsPart(t, b, key, now);
    var ready := R.Prepared(t, b, key, now);
    if !(key in ready.items && (ready.items[key].total != f.total || ready.items[key].version != f.version)) {
      var entry := if key in ready.items then ready.items[key] else R.Assembly(f.total, now, now, f.version, map[]);
      PutForm(ready, key, entry);
      PlacedEntry(Put(ready, key, entry), b, key, entry, f, now);
    }
  }

  lemma PutForm<V>(d: OrderedDict<Key, V>, key: Key, v: V)
    requires WellFormed(d)
    ensures WellFormed(Put(d, key, v))
  {
  }

  // ------------------------------------------------------------- agreement

  ghost predicate Mirrors(p: Progress, a: R.Assembly) {
    && p.total == a.total && p.received == a.parts.Keys
    && 1 <= a.total <= MAX_FRAGMENTS && |a.parts| != a.total
    && (forall i :: i in a.parts ==> 0 <= i < a.total)
  }

  // The tracker follows exactly the transactions being reassembled, with the
  // same count and the same indices; answered ones are in neither.
  ghost predicate Agree(s: State) {
    && WellFormed(s.tracker) && WellFormed(s.table)
    && (forall k :: k in s.tracker.items <==> k in s.table.items)
    && (forall k :: k in s.table.items && k in s.tracker.items ==> Mirrors(s.tracker.items[k], s.table.items[k]))
    && (forall k :: k in s.cache.items ==> k !in s.table.items)
  }

  // Housekeeping at `now` on behalf of `key` loses no reassembly entry.
  ghost predicate Spares(s: State, cfg: Settings, key: Key, now: nat)
    requires cfg.Valid()
  {
    forall k :: k in s.table.items ==> k in R.Prepared(s.table, cfg.bounds, key, now).items
  }

  ghost predicate NoneStale(s: State, cfg: Settings, now: nat) {
    forall k :: k in s.table.items ==> !R.Stale(s.table.items[k], cfg.bounds.ttl, now)
  }

  // Housekeeping on behalf of fragment `f` loses no other entry, and its own
  // only where the record is begun anew as well or knows no more than `f`.
  ghost predicate Keeps(s: State, cfg: Settings, key: Key, f: Fragment, now: nat)
    requires cfg.Valid()
  {
    var ready := R.Prepared(s.table, cfg.bounds, key, now);
    && (forall k :: k != key && k in s.table.items ==> k in ready.items)
    && (key in s.table.items && key !in ready.items && R.Add(s.table, cfg.bounds, key.peer, f, now).result.Waiting? ==>
          s.table.items[key].total != f.total || s.table.items[key].parts.Keys <= {f.index})
  }

  // A fragment of a transaction that is not answered already.
  predicate Reassembles(s: State, cfg: Settings, peer: string, body: string, now: nat) {
    && ValidPeer(peer) && ParseFragment(body).Ok?
    && P.Recall(s.cache, cfg.limits, R.Key(peer, ParseFragment(body).value.transactionId), now).answer.None?
  }

  // A fragment costs no entry its record outlives, and does not end in an
  // exception; a poll finds no stale entry, or raises before it looks.
  ghost predicate Calm(s: State, cfg: Settings, e: Event)
    requires cfg.Valid() && ValidEvent(e)
  {
    match e
    case Arrive(peer, body, env) =>
      Reassembles(s, cfg, peer, body, env.now) ==>
        var f := ParseFragment(body).value;
        Receive(s, cfg, peer, body, env).outcome.Ok? && Keeps(s, cfg, R.Key(peer, f.transactionId), f, env.now)
    case Tick(now) => Raises(s, cfg, now) || NoneStale(s, cfg, now)
    case Route(_, _) => true
  }

  // While the fragment `key` is being handled: all other transactions agree.
  ghost predicate AgreeBut(s: State, key: Key) {
    && WellFormed(s.tracker) && WellFormed(s.table)
    && (forall k :: k != key ==> (k in s.tracker.items <==> k in s.table.items))
    && (forall k :: k != key && k in s.table.items && k in s.tracker.items ==> Mirrors(s.tracker.items[k], s.table.items[k]))
    && (forall k :: k != key && k in s.cache.items ==> k !in s.table.items)
  }

  lemma PreparedWhole(s: State, cfg: Settings, key: Key, now: nat)
    requires cfg.Valid() && WellFormed(s.table) && Spares(s, cfg, key, now)
    ensures var ready := R.Prepared(s.table, cfg.bounds, key, now);
            WellFormed(ready) && ready.items == s.table.items
  {
    hide R.Prepared, WellFormed;
    RRP.PreparedIsPart(s.table, cfg.bounds, key, now);
  }

  // The table and the tracker once a fragment has been noted and added.
  function Held(s: State, cfg: Settings, key: Key, f: Fragment, now: nat): State
    requires cfg.Valid()
  {
    s.(tracker := Noted(s.tracker, cfg, key, f, now), table := R.Add(s.table, cfg.bounds, key.peer, f, now).table)
  }

  predicate InRange(f: Fragment) {
    0 <= f.index < f.total <= MAX_FRAGMENTS
  }

  lemma HeldParts(s: State, cfg: Settings, key: Key, f: Fragment, now: nat)
    requires cfg.Valid() && Agree(s) && key.transactionId == f.transactionId
    ensures var ready := R.Prepared(s.table, cfg.bounds, key, now);
            var held := Held(s, cfg, key, f, now);
            && WellFormed(held.tracker) && WellFormed(held.table)
            && EntryAfter(ready, f, key, R.Add(s.table, cfg.bounds, key.peer, f, now))
            && (forall k :: k in ready.items ==> k in s.table.items && ready.items[k] == s.table.items[k])
            && (forall k :: k != key ==> (k in held.table.items <==> k in ready.items))
            && (forall k :: k != key && k in held.table.items ==> held.table.items[k] == s.table.items[k])
            && key in held.tracker.items && held.tracker.items[key].total == f.total
            && held.tracker.items[key].received
               == (if key in s.tracker.items && s.tracker.items[key].total == f.total then s.tracker.items[key].received else {}) + {f.index}
            && (forall k :: k != key ==> (k in held.tracker.items <==> k in s.tracker.items))
            && (forall k :: k != key && k in s.tracker.items ==> held.tracker.items[k] == s.tracker.items[k])
  {
    hide R.Prepared, R.Add, WellFormed, Noted, Mirrors, EntryAfter;
    RRP.PreparedIsPart(s.table, cfg.bounds, key, now);
    AddEntry(s.table, cfg.bounds, key.peer, f, now);
    RRP.AddLocal(s.table, cfg.bounds, RRP.Arrival(key.peer, f, now));
    NotedOthers(s.tracker, cfg, key, f, now);
  }

  lemma HeldAgree(s: State, cfg: Settings, key: Key, f: Fragment, now: nat)
    requires cfg.Valid() && Agree(s) && InRange(f) && key.transactionId == f.transactionId && Keeps(s, cfg, key, f, now)
    ensures var waiting := R.Add(s.table, cfg.bounds, key.peer, f, now).result.Waiting?;
            var held := Held(s, cfg, key, f, now);
            && AgreeBut(held, key)
            && (!waiting ==> key !in held.table.items)
            && (waiting && key !in s.cache.items ==> Agree(held))
  {
    hide R.Prepared, R.Add, WellFormed, Noted, Mirrors;
    HeldParts(s, cfg, key, f, now);
    if R.Add(s.table, cfg.bounds, key.peer, f, now).result.Waiting? {
      OwnMirrors(s, cfg, key, f, now);
    }
  }

  lemma OwnMirrors(s: State, cfg: Settings, key: Key, f: Fragment, now: nat)
    requires cfg.Valid() && Agree(s) && InRange(f) && key.transactionId == f.transactionId && Keeps(s, cfg, key, f, now)
    requires R.Add(s.table, cfg.bounds, key.peer, f, now).result.Waiting?
    ensures var held := Held(s, cfg, key, f, now);
            key in held.table.items && Mirrors(held.tracker.items[key], held.table.items[key])
  {
    hide R.Prepared, R.Add, WellFormed, Noted;
    HeldParts(s, cfg, key, f, now);
    var a := Held(s, cfg, key, f, now).table.items[key];
    assert key in s.table.items ==> Mirrors(s.tracker.items[key], s.table.items[key]);
    forall i | i in a.parts
      ensures 0 <= i < a.total
    {
    }
  }

  // A lost entry leaves its record behind, or one that knows of more.
  lemma LossParts(s: State, cfg: Settings, key: Key, f: Fragment, now: nat)
    requires cfg.Valid() && Agree(s) && key.transactionId == f.transactionId && !Keeps(s, cfg, key, f, now)
    ensures var held := Held(s, cfg, key, f, now);
            || (exists k :: k != key && k in held.tracker.items && k !in held.table.items)
            || (R.Add(s.table, cfg.bounds, key.peer, f, now).result.Waiting? && !Agree(held))
  {
    hide R.Prepared, R.Add, WellFormed, Noted;
    HeldParts(s, cfg, key, f, now);
    var ready := R.Prepared(s.table, cfg.bounds, key, now);
    var held := Held(s, cfg, key, f, now);
    if k :| k != key && k in s.table.items && k !in ready.items {
      assert k in held.tracker.items && k !in held.table.items;
    } else {
      OwnLoss(s, cfg, key, f, now);
    }
  }

  lemma OwnLoss(s: State, cfg: Settings, key: Key, f: Fragment, now: nat)
    requires cfg.Valid() && Agree(s) && key.transactionId == f.transactionId
    requires key in s.table.items && key !in R.Prepared(s.table, cfg.bounds, key, now).items
    requires R.Add(s.table, cfg.bounds, key.peer, f, now).result.Waiting?
    requires s.table.items[key].total == f.total && !(s.table.items[key].parts.Keys <= {f.index})
    ensures !Agree(Held(s, cfg, key, f, now))
  {
    hide R.Prepared, R.Add, WellFormed, Noted;
    HeldParts(s, cfg, key, f, now);
    var held := Held(s, cfg, key, f, now);
    assert Mirrors(s.tracker.items[key], s.table.items[key]);
    var i := NotWithin(s.table.items[key].parts.Keys, {f.index});
    assert i in held.tracker.items[key].received && i !in held.table.items[key].parts.Keys;
    assert !Mirrors(held.tracker.items[key], held.table.items[key]);
  }

  lemma NotWithin<T>(a: set<T>, b: set<T>) returns (x: T)
    requires !(a <= b)
    ensures x in a && x !in b
  {
    x :| x in a && x !in b;
  }

  lemma NotedOthers(t: Tracker, cfg: Settings, key: Key, f: Fragment, now: nat)
    requires WellFormed(t)
    ensures var u := Noted(t, cfg, key, f, now);
            && WellFormed(u) && key in u.items
            && u.items[key].total == f.total
            && u.items[key].received == (if key in t.items && t.items[key].total == f.total then t.items[key].received else {}) + {f.index}
            && (forall k :: k != key ==> (k in u.items <==> k in t.items))
            && (forall k :: k != key && k in t.items ==> u.items[k] == t.items[k])
  {
    hide WellFormed;
    var before := if key in t.items && t.items[key].total == f.total then t.items[key] else Progress(f.total, {}, 0, false);
    var sawFinal := before.sawFinal || f.index == f.total - 1;
    PutForm(t, key, Progress(f.total, before.received + {f.index}, now + Grace(cfg, sawFinal), sawFinal));
  }

  // ------------------------------------------------- the rest of one arrival

  // The cache may lose answers, and gain one for `key` only.
  ghost predicate CacheOnly(s: State, t: State, key: Key) {
    && t.table == s.table && t.tracker == s.tracker
    && forall k :: k in t.cache.items && k != key ==> k in s.cache.items
  }

  lemma ConsultedOnly(s: State, cfg: Settings, key: Key, now: nat)
    ensures CacheOnly(s, Consulted(s, cfg, key, now), key)
    ensures forall k :: k in Consulted(s, cfg, key, now).cache.items ==> k in s.cache.items
  {
  }

  lemma ConfirmOnly(s: State, cfg: Settings, key: Key, now: nat)
    requires OneByteId(key)
    ensures CacheOnly(s, ConfirmReceipt(s, cfg, key, now), key)
  {
    hide IsSend, WasStored, CompactBatch, P.Recall, OneByteId;
    ConsultedOnly(s.(immediate := s.immediate + [AckPacket(key)]), cfg, key, now);
  }

  lemma RespondOnly(s: State, cfg: Settings, key: Key, responses: seq<Bytes>, supersedable: bool, firstTime: bool, d: Disposition)
    ensures CacheOnly(s, Respond(s, cfg, key, responses, supersedable, firstTime, d).state, key)
    ensures Respond(s, cfg, key, responses, supersedable, firstTime, d).outcome.Ok? ==>
              Respond(s, cfg, key, responses, supersedable, firstTime, d).outcome.value == d
  {
    hide QueueAll;
  }

  lemma RememberOnly(c: P.Cache, lim: P.Limits, key: Key, request: Bytes, responses: seq<Bytes>, now: int)
    requires WellFormed(c)
    ensures forall k :: k in P.Remember(c, lim, key, request, responses, now).items && k != key ==> k in c.items
  {
    hide P.Surplus, EvictBelow;
    var put := Put(c, key, P.Answer(request, responses, now));
    PutForm(c, key, P.Answer(request, responses, now));
    MoveKeepsForm(put, key);
    var moved := MoveToEnd(put, key);
    var trimmed := P.TrimPeer(moved, key.peer, lim.maxPerPeer);
    RestrictKeepsForm(moved, moved.items.Keys - P.Surplus(moved, key.peer, lim.maxPerPeer));
    EvictKeepsForm(trimmed, lim.maxEntries + 1);
  }

  lemma ExecutedOnly(s: State, cfg: Settings, key: Key, frame: Bytes, responses: seq<Bytes>, commitId: Option<string>, now: nat)
    requires WellFormed(s.cache)
    ensures var r := Executed(s, cfg, key, frame, responses, commitId, now);
            CacheOnly(s, r.state, key) && (r.outcome.Ok? ==> r.outcome.value == Completed)
  {
    hide IsSend, WasStored, SupersedeStale, P.Remember, Respond, WellFormed;
    RememberOnly(s.cache, cfg.limits, key, frame, responses, now);
    var kept := s.(sender := SupersedeStale(s.sender, key.peer, key),
                   cache := P.Remember(s.cache, cfg.limits, key, frame, responses, now),
                   trail := s.trail + [RP.Store(key, frame, responses, now)]);
    RespondOnly(kept, cfg, key, responses, !IsSend(frame), true, Completed);
  }

  lemma RepeatedOnly(s: State, cfg: Settings, key: Key, frame: Bytes, answer: P.Answer, commitId: Option<string>)
    ensures var r := Repeated(s, cfg, key, frame, answer, commitId);
            CacheOnly(s, r.state, key) && (r.outcome.Ok? ==> Settling(r.outcome.value))
  {
    hide IsSend, WasStored, SupersedeStale, Respond;
    var cleared := s.(sender := SupersedeStale(s.sender, key.peer, key));
    RespondOnly(cleared, cfg, key, answer.responses, !IsSend(frame), false, Replayed);
  }

  predicate Settling(d: Disposition) {
    d == Completed || d == Replayed || d == InvalidFound || d == ConflictFound
  }

  lemma AssembledOnly(s: State, cfg: Settings, key: Key, frame: Bytes, env: Env, commitId: Option<string>)
    requires ValidPeer(key.peer) && WellFormed(s.cache)
    ensures var r := Assembled(s, cfg, key, frame, env, commitId);
            CacheOnly(s, r.state, key) && (r.outcome.Ok? ==> Settling(r.outcome.value))
  {
    hide P.Recall, Repeated, Executed, C.DecodeFrame, IsRequest, ValidPeer, Core.HandleFrame, CallsignOf;
    hide IsCallsign, WellFormed;
    var looked := Consulted(s, cfg, key, env.now);
    var found := P.Recall(s.cache, cfg.limits, key, env.now).answer;
    ConsultedOnly(s, cfg, key, env.now);
    RecallKeepsForm(s.cache, cfg.limits, key, env.now);
    if found.Some? {
      RepeatedOnly(looked, cfg, key, frame, found.value, commitId);
    } else {
      var h := Core.HandleFrame(s.core, cfg.board, CallsignOf(key.peer), frame, env.clock, env.text);
      if h.frames.Ok? {
        ExecutedOnly(looked.(core := h.state), cfg, key, frame, h.frames.value, commitId, env.now);
      }
    }
  }

  lemma RecallKeepsForm(c: P.Cache, lim: P.Limits, key: Key, now: int)
    requires WellFormed(c)
    ensures WellFormed(P.Recall(c, lim, key, now).cache)
  {
    hide WellFormed;
    RestrictKeepsForm(c, P.Live(c, lim.ttl, now));
    var live := P.Aged(c, lim.ttl, now);
    if key in live.items {
      MoveKeepsForm(live, key);
    }
  }

  // Once its entry and its record are both gone, a transaction agrees again.
  lemma ForgottenAgree(s: State, key: Key)
    requires AgreeBut(s, key) && key !in s.table.items
    ensures Agree(Forgotten(s, key))
  {
    hide WellFormed;
    RestrictKeepsForm(s.tracker, s.tracker.items.Keys - {key});
  }

  lemma OnlyKeepsAgreeBut(s: State, t: State, key: Key)
    requires AgreeBut(s, key) && CacheOnly(s, t, key)
    ensures AgreeBut(t, key)
  {
    hide WellFormed, Mirrors;
  }

  // What handling a fragment leaves in the end.
  lemma HandledParts(s: State, cfg: Settings, peer: string, f: Fragment, env: Env, commitId: Option<string>)
    requires cfg.Valid() && ValidPeer(peer) && WellFormed(s.cache)
    ensures var key := R.Key(peer, f.transactionId);
            var held := Held(s, cfg, key, f, env.now);
            var waiting := R.Add(s.table, cfg.bounds, peer, f, env.now).result.Waiting?;
            var r := HandleFragment(s, cfg, peer, f, env, commitId);
            && (waiting ==> r == Received(held, Ok(FragmentHeld)))
            && (!waiting && r.outcome.Ok? ==> exists u: State :: CacheOnly(held, u, key) && r.state == Forgotten(u, key))
            && (r.outcome.Err? ==> !waiting && CacheOnly(held, r.state, key))
  {
    hide R.Add, Noted, ValidPeer, Assembled, WellFormed, ConfirmReceipt, Forgotten, OneByteId;
    var key := R.Key(peer, f.transactionId);
    var noted := s.(tracker := Noted(s.tracker, cfg, key, f, env.now));
    var added := R.Add(s.table, cfg.bounds, peer, f, env.now);
    var held := Held(s, cfg, key, f, env.now);
    var r := Collect(noted, cfg, peer, f, env, commitId);
    if added.result.Complete? {
      AssembledOnly(held, cfg, key, added.result.frame, env, commitId);
    }
    if !added.result.Waiting? && OneByteId(key) {
      ConfirmOnly(r.state, cfg, key, env.now);
      assert CacheOnly(held, ConfirmReceipt(r.state, cfg, key, env.now), key);
    }
  }

  // Agreement outlives a fragment if and only if nothing was lost and nothing
  // raised.
  lemma FragmentAgreesExactly(s: State, cfg: Settings, peer: string, f: Fragment, env: Env, commitId: Option<string>)
    requires cfg.Valid() && ValidPeer(peer) && Agree(s) && InRange(f) && WellFormed(s.cache)
    requires R.Key(peer, f.transactionId) !in s.cache.items
    ensures var r := HandleFragment(s, cfg, peer, f, env, commitId);
            Agree(r.state) <==> r.outcome.Ok? && Keeps(s, cfg, R.Key(peer, f.transactionId), f, env.now)
  {
    hide R.Add, R.Prepared, Noted, ValidPeer, HandleFragment, WellFormed, AgreeBut, Mirrors, Keeps;
    var key := R.Key(peer, f.transactionId);
    var held := Held(s, cfg, key, f, env.now);
    var r := HandleFragment(s, cfg, peer, f, env, commitId);
    HandledParts(s, cfg, peer, f, env, commitId);
    HeldParts(s, cfg, key, f, env.now);
    if !Keeps(s, cfg, key, f, env.now) {
      LossParts(s, cfg, key, f, env.now);
    } else {
      HeldAgree(s, cfg, key, f, env.now);
      if r.outcome.Ok? && !R.Add(s.table, cfg.bounds, peer, f, env.now).result.Waiting? {
        var u :| CacheOnly(held, u, key) && r.state == Forgotten(u, key);
        OnlyKeepsAgreeBut(held, u, key);
        ForgottenAgree(u, key);
      }
    }
  }

  lemma SameTablesAgree(s: State, t: State)
    requires Agree(s) && t.table == s.table && t.tracker == s.tracker
    requires forall k :: k in t.cache.items ==> k in s.cache.items
    ensures Agree(t)
  {
    hide WellFormed, Mirrors;
  }

  lemma ControlTables(s: State, peer: string, control: Control)
    ensures var t := HandleControl(s, peer, control).state;
            t.table == s.table && t.tracker == s.tracker && t.cache == s.cache
  {
    hide InFlight, Wanted;
  }

  lemma ParsedInRange(body: string)
    requires ParseFragment(body).Ok?
    ensures 0 <= ParseFragment(body).value.index < ParseFragment(body).value.total <= MAX_FRAGMENTS
  {
    if StartsWith(body, "Q2") {
      Q2ParsesValid(body);
    } else {
      hide SplitMessageId;
    }
  }

  // What a fragment of an unanswered transaction is: a fragment, handled.
  lemma ReassemblesIs(s: State, cfg: Settings, peer: string, body: string, env: Env)
    requires cfg.Valid() && Reassembles(s, cfg, peer, body, env.now)
    ensures var f := ParseFragment(body).value;
            Receive(s, cfg, peer, body, env)
            == HandleFragment(Consulted(s, cfg, R.Key(peer, f.transactionId), env.now), cfg, peer, f, env, CommitId(body))
  {
    hide ParseFragment, ParseControl, ValidPeer, HandleFragment, CommitId, P.Recall;
    if ParseControl(body).Some? {
      ControlOrFragment(body);
    }
  }

  // Everything else that arrives leaves table and tracker to agree.
  lemma OtherwiseAgree(s: State, cfg: Settings, peer: string, body: string, env: Env)
    requires cfg.Valid() && Agree(s) && WellFormed(s.cache) && !Reassembles(s, cfg, peer, body, env.now)
    ensures Agree(Receive(s, cfg, peer, body, env).state)
  {
    hide Agree, ParseFragment, ParseControl, HandleControl, ValidPeer, P.Recall, ConfirmReceipt, WellFormed;
    hide Forgotten, OneByteId;
    hide CommitId, IsPacketAck;
    if ValidPeer(peer) && ParseFragment(body).Ok? {
      var key := R.Key(peer, ParseFragment(body).value.transactionId);
      RecallSays(s, cfg, key, env.now);
      RepeatAgree(s, cfg, key, env.now);
    } else if ValidPeer(peer) && ParseControl(body).Some? {
      ControlTables(s, peer, ParseControl(body).value);
      SameTablesAgree(s, HandleControl(s, peer, ParseControl(body).value).state);
    } else {
      SameTablesAgree(s, Receive(s, cfg, peer, body, env).state);
    }
  }

  lemma ReceiveAgreesExactly(s: State, cfg: Settings, peer: string, body: string, env: Env)
    requires cfg.Valid() && Agree(s) && WellFormed(s.cache)
    ensures Agree(Receive(s, cfg, peer, body, env).state) <==> Calm(s, cfg, Arrive(peer, body, env))
  {
    hide Agree, ParseFragment, ValidPeer, P.Recall, WellFormed, Receive, HandleFragment, Keeps, Consulted, CommitId;
    if Reassembles(s, cfg, peer, body, env.now) {
      var f := ParseFragment(body).value;
      var key := R.Key(peer, f.transactionId);
      var looked := Consulted(s, cfg, key, env.now);
      ConsultedOnly(s, cfg, key, env.now);
      LookedForm(s, cfg, key, env.now);
      SameTablesAgree(s, looked);
      RecallSays(s, cfg, key, env.now);
      ReassemblesIs(s, cfg, peer, body, env);
      ParsedInRange(body);
      SameKeeps(s, looked, cfg, key, f, env.now);
      FragmentAgreesExactly(looked, cfg, peer, f, env, CommitId(body));
    } else {
      OtherwiseAgree(s, cfg, peer, body, env);
    }
  }

  lemma LookedForm(s: State, cfg: Settings, key: Key, now: nat)
    requires WellFormed(s.cache)
    ensures WellFormed(Consulted(s, cfg, key, now).cache)
  {
    hide P.Recall, WellFormed;
    RecallKeepsForm(s.cache, cfg.limits, key, now);
  }

  lemma SameKeeps(s: State, t: State, cfg: Settings, key: Key, f: Fragment, now: nat)
    requires cfg.Valid() && t.table == s.table
    ensures Keeps(t, cfg, key, f, now) <==> Keeps(s, cfg, key, f, now)
  {
  }

  lemma SameSpares(s: State, t: State, cfg: Settings, key: Key, now: nat)
    requires cfg.Valid() && t.table == s.table && Spares(s, cfg, key, now)
    ensures Spares(t, cfg, key, now)
  {
  }

  lemma RecallSays(s: State, cfg: Settings, key: Key, now: nat)
    ensures P.Recall(s.cache, cfg.limits, key, now).answer.None? ==> key !in Consulted(s, cfg, key, now).cache.items
    ensures P.Recall(s.cache, cfg.limits, key, now).answer.Some? ==> key in s.cache.items
  {
  }

  lemma RepeatAgree(s: State, cfg: Settings, key: Key, now: nat)
    requires Agree(s) && key in s.cache.items
    ensures Agree(Forgotten(Consulted(s, cfg, key, now), key))
    ensures OneByteId(key) ==> Agree(ConfirmReceipt(Forgotten(Consulted(s, cfg, key, now), key), cfg, key, now))
  {
    hide WellFormed, Mirrors, ConfirmReceipt, P.Recall, OneByteId;
    var looked := Consulted(s, cfg, key, now);
    ConsultedOnly(s, cfg, key, now);
    ForgottenAgree(looked, key);
    if OneByteId(key) {
      ConfirmOnly(Forgotten(looked, key), cfg, key, now);
    }
  }

  // ------------------------------------------------------------------ polling

  // Nudging changes deadlines only, unless a record has nothing missing.
  lemma NudgeOneKeeps(t: Tracker, cfg: Settings, key: Key, now: nat)
    requires WellFormed(t) && (key in t.items ==> Unheard(t.items[key]) != {})
    ensures var u := NudgeOne(t, cfg, key, now).tracker;
            && WellFormed(u)
            && (forall k :: k in u.items <==> k in t.items)
            && (forall k :: k in t.items ==> u.items[k].total == t.items[k].total && u.items[k].received == t.items[k].received)
  {
    hide WellFormed, Unheard;
    if key in t.items {
      PutForm(t, key, t.items[key].(deadline := now + Grace(cfg, t.items[key].sawFinal)));
    }
  }

  lemma {:induction false} NudgeKeeps(t: Tracker, cfg: Settings, keys: seq<Key>, now: nat, n: nat)
    requires WellFormed(t) && n <= |keys| && forall k :: k in t.items ==> Unheard(t.items[k]) != {}
    ensures var u := Nudge(t, cfg, keys, now, n).tracker;
            && WellFormed(u)
            && (forall k :: k in u.items <==> k in t.items)
            && (forall k :: k in t.items ==> u.items[k].total == t.items[k].total && u.items[k].received == t.items[k].received)
  {
    hide WellFormed, Unheard, NudgeOne;
    if n == 0 {
    } else {
      NudgeKeeps(t, cfg, keys, now, n - 1);
      var u := Nudge(t, cfg, keys, now, n - 1).tracker;
      if keys[n - 1] in u.items {
        SameUnheard(t.items[keys[n - 1]], u.items[keys[n - 1]]);
      }
      NudgeOneKeeps(u, cfg, keys[n - 1], now);
    }
  }

  lemma SameUnheard(p: Progress, q: Progress)
    requires p.total == q.total && p.received == q.received
    ensures Unheard(p) == Unheard(q)
  {
  }

  // A transaction still being reassembled misses something.
  lemma SomethingMissing(p: Progress, a: R.Assembly)
    requires Mirrors(p, a)
    ensures Unheard(p) != {} && forall i: nat :: i in Unheard(p) <==> i < a.total && i !in a.parts
  {
    hide Unheard;
    UnheardIs(p);
    if Unheard(p) == {} {
      AllHeard(p, a);
    }
  }

  lemma UnheardIs(p: Progress)
    ensures forall i: nat :: i in Unheard(p) <==> i < p.total && i !in p.received
  {
  }

  lemma AllHeard(p: Progress, a: R.Assembly)
    requires p.total == a.total >= 0 && p.received == a.parts.Keys && Unheard(p) == {}
    requires forall i :: i in a.parts ==> 0 <= i < a.total
    ensures |a.parts| == a.total
  {
    hide Unheard, Range;
    UnheardIs(p);
    forall i | i in Range(a.total)
      ensures i in a.parts.Keys
    {
      var n: nat := i;
      assert n !in Unheard(p);
    }
    assert a.parts.Keys == Range(a.total);
    assert |a.parts| == |a.parts.Keys|;
  }

  lemma TrackedLacks(s: State)
    requires Agree(s)
    ensures forall k :: k in s.tracker.items ==> Unheard(s.tracker.items[k]) != {}
  {
    hide WellFormed, Mirrors, Unheard;
    forall k | k in s.tracker.items
      ensures Unheard(s.tracker.items[k]) != {}
    {
      SomethingMissing(s.tracker.items[k], s.table.items[k]);
    }
  }

  lemma PollAgree(s: State, cfg: Settings, now: nat)
    requires cfg.Valid() && Agree(s) && Calm(s, cfg, Tick(now))
    ensures Agree(Poll(s, cfg, now).state)
  {
    hide WellFormed, Mirrors, Unheard, Nudge, PollSender, Emitted, Restrict;
    TrackedLacks(s);
    NudgeKeeps(s.tracker, cfg, s.tracker.order, now, |s.tracker.order|);
    if !Raises(s, cfg, now) {
      AgedKeepsAll(s, cfg, now);
    }
    PolledAgree(s, Poll(s, cfg, now).state);
  }

  lemma AgedKeepsAll(s: State, cfg: Settings, now: nat)
    requires WellFormed(s.table) && NoneStale(s, cfg, now)
    ensures var t := R.Expired(s.table, cfg.bounds.ttl, now);
            WellFormed(t) && t.items == s.table.items
    ensures forall k :: k in P.Aged(s.cache, cfg.limits.ttl, now).items ==> k in s.cache.items
  {
    RestrictKeepsForm(s.table, R.Fresh(s.table, cfg.bounds.ttl, now));
  }

  lemma PolledAgree(s: State, t: State)
    requires Agree(s) && WellFormed(t.tracker) && WellFormed(t.table)
    requires t.table.items == s.table.items
    requires forall k :: k in t.tracker.items <==> k in s.tracker.items
    requires forall k :: k in s.tracker.items ==>
               t.tracker.items[k].total == s.tracker.items[k].total && t.tracker.items[k].received == s.tracker.items[k].received
    requires forall k :: k in t.cache.items ==> k in s.cache.items
    ensures Agree(t)
  {
    hide WellFormed;
  }

  lemma StepAgreesExactly(s: State, cfg: Settings, e: Event)
    requires cfg.Valid() && ValidEvent(e) && Agree(s) && WellFormed(s.cache)
    ensures Agree(Step(s, cfg, e)) <==> Calm(s, cfg, e)
  {
    hide Agree, Receive, Poll, QueueFrame, C.EncodeFrame, WellFormed, Keeps, NoneStale, Reassembles, Raises;
    match e
    case Arrive(peer, body, env) => ReceiveAgreesExactly(s, cfg, peer, body, env);
    case Tick(now) => PollAgreesUnlessStale(s, cfg, now);
    case Route(endpoint, message) => SameTablesAgree(s, Deliver(s, cfg, endpoint, message).state);
  }

  ghost predicate AllCalm(cfg: Settings, core: Core.State, events: seq<Event>, n: nat)
    requires Valid(cfg, events) && n <= |events|
  {
    forall i :: 0 <= i < n ==> Calm(After(cfg, core, events, i), cfg, events[i])
  }

  lemma CacheForm(s: State, cfg: Settings)
    requires cfg.Valid() && AO.TrailOk(s, cfg)
    ensures WellFormed(s.cache)
  {
    hide RP.After, WellFormed, RP.Ranked;
    RP.RecencyHolds(cfg.limits, s.trail, |s.trail|);
  }

  // On every run, and in every state of it: each repair record has the count
  // and the index set of the reassembly entry it is for, if and only if no
  // entry was lost to age or room that its record outlived and no fragment
  // ended in an exception.
  lemma {:induction false} RunAgree(cfg: Settings, core: Core.State, events: seq<Event>, n: nat)
    requires Valid(cfg, events) && n <= |events| && AO.CoreSafe(Start(core), cfg)
    ensures AllAgree(cfg, core, events, n) <==> AllCalm(cfg, core, events, n)
  {
    hide Step, AO.TrailOk, AO.CoreSafe, Calm, Agree, WellFormed, AllAgree, AllCalm;
    if n == 0 {
      NothingYet(cfg, core, events);
    } else {
      RunAgree(cfg, core, events, n - 1);
      OneStepMore(cfg, core, events, n);
      if AllAgree(cfg, core, events, n - 1) {
        AO.RunTrail(cfg, core, events, n - 1);
        CacheForm(After(cfg, core, events, n - 1), cfg);
        StepAgreesExactly(After(cfg, core, events, n - 1), cfg, events[n - 1]);
      }
    }
  }

  lemma OneStepMore(cfg: Settings, core: Core.State, events: seq<Event>, n: nat)
    requires Valid(cfg, events) && 0 < n <= |events|
    ensures AllAgree(cfg, core, events, n) <==> AllAgree(cfg, core, events, n - 1) && Agree(After(cfg, core, events, n))
    ensures AllAgree(cfg, core, events, n - 1) ==> Agree(After(cfg, core, events, n - 1))
    ensures AllCalm(cfg, core, events, n)
        <==> AllCalm(cfg, core, events, n - 1) && Calm(After(cfg, core, events, n - 1), cfg, events[n - 1])
  {
    hide After, Agree, Calm;
  }

  ghost predicate AllAgree(cfg: Settings, core: Core.State, events: seq<Event>, n: nat)
    requires Valid(cfg, events) && n <= |events|
  {
    forall i :: 0 <= i <= n ==> Agree(After(cfg, core, events, i))
  }

  lemma NothingYet(cfg: Settings, core: Core.State, events: seq<Event>)
    requires Valid(cfg, events)
    ensures AllAgree(cfg, core, events, 0) && AllCalm(cfg, core, events, 0)
  {
  }

  // ------------------------------------------------------ repair requests

  // `missing` is exactly what the entry does not hold.
  ghost predicate JustMissing(missing: set<nat>, a: R.Assembly) {
    missing != {} && forall i: nat :: i in missing <==> i < a.total && i !in a.parts
  }

  ghost predicate AsksFor(x: Packet, key: Key, a: R.Assembly) {
    exists missing: set<nat> ::
      EncodeMissing(key.transactionId, missing).Ok? && x == MissingPacket(key, missing) && JustMissing(missing, a)
  }

  ghost predicate AsksTruly(x: Packet, t: R.Table) {
    exists k :: k in t.items && AsksFor(x, k, t.items[k])
  }

  ghost predicate AllAskTruly(packets: seq<Packet>, t: R.Table) {
    forall i :: 0 <= i < |packets| ==> AsksTruly(packets[i], t)
  }

  // Every repair request a poll sends asks for exactly the fragments that its
  // transaction still lacks.
  lemma RepairRequestsAreExact(s: State, cfg: Settings, now: nat)
    requires Agree(s)
    ensures AllAskTruly(Nudge(s.tracker, cfg, s.tracker.order, now, |s.tracker.order|).packets, s.table)
  {
    hide Agree, Unheard, Nudge;
    TrackedLacks(s);
    NudgeAsks(s, cfg, s.tracker.order, now, |s.tracker.order|);
  }

  lemma {:induction false} NudgeAsks(s: State, cfg: Settings, keys: seq<Key>, now: nat, n: nat)
    requires Agree(s) && n <= |keys| && forall k :: k in s.tracker.items ==> Unheard(s.tracker.items[k]) != {}
    ensures AllAskTruly(Nudge(s.tracker, cfg, keys, now, n).packets, s.table)
  {
    hide WellFormed, Mirrors, Unheard, NudgeOne, AsksTruly;
    if n == 0 {
    } else {
      NudgeAsks(s, cfg, keys, now, n - 1);
      NudgeKeeps(s.tracker, cfg, keys, now, n - 1);
      OneAsks(s, Nudge(s.tracker, cfg, keys, now, n - 1).tracker, cfg, keys[n - 1], now);
    }
  }

  lemma OneAsks(s: State, t: Tracker, cfg: Settings, key: Key, now: nat)
    requires Agree(s) && (key in t.items <==> key in s.tracker.items)
    requires key in t.items ==>
               t.items[key].total == s.tracker.items[key].total && t.items[key].received == s.tracker.items[key].received
    ensures AllAskTruly(NudgeOne(t, cfg, key, now).packets, s.table)
  {
    hide WellFormed, Unheard, Delete, Put, Mirrors, EncodeMissing;
    if key in t.items {
      SameUnheard(t.items[key], s.tracker.items[key]);
      SomethingMissing(s.tracker.items[key], s.table.items[key]);
      var missing := Unheard(t.items[key]);
      assert JustMissing(missing, s.table.items[key]);
      if EncodeMissing(key.transactionId, missing).Ok? {
        assert AsksFor(MissingPacket(key, missing), key, s.table.items[key]);
      }
    }
  }

  // Repair records have no time-to-live of their own: the first poll that
  // expires an entry leaves its record behind. Agreement is lost then and only
  // then; a poll that raises expires nothing.
  lemma PollAgreesUnlessStale(s: State, cfg: Settings, now: nat)
    requires cfg.Valid() && Agree(s)
    ensures Agree(Poll(s, cfg, now).state) <==> Raises(s, cfg, now) || NoneStale(s, cfg, now)
  {
    hide Poll, Mirrors, WellFormed;
    if Raises(s, cfg, now) || NoneStale(s, cfg, now) {
      PollAgree(s, cfg, now);
    } else {
      var k :| k in s.table.items && R.Stale(s.table.items[k], cfg.bounds.ttl, now);
      RecordOutlivesEntry(s, cfg, now, k);
    }
  }

  lemma RecordOutlivesEntry(s: State, cfg: Settings, now: nat, k: Key)
    requires cfg.Valid() && Agree(s) && k in s.table.items && R.Stale(s.table.items[k], cfg.bounds.ttl, now)
    requires !Raises(s, cfg, now)
    ensures var t := Poll(s, cfg, now).state;
            k in t.tracker.items && k !in t.table.items
  {
    hide WellFormed, Mirrors, Unheard, Nudge, PollSender, Emitted;
    TrackedLacks(s);
    NudgeKeeps(s.tracker, cfg, s.tracker.order, now, |s.tracker.order|);
  }
}
