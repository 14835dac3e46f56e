// Selective repair carried to its end: requests stay in force over whole runs
// of the sending adapter, and the fragments that come back, in any order and
// repeated, finish the frame at the receiving one.
module RepairRuns {
  import opened Prelude
  import opened Ordered
  import opened Carriage
  import opened Control
  import opened Burst
  import opened Selective
  import opened SelectiveProofs
  import B = Bookkeeping
  import BP = BurstProofs
  import BR = BurstRuns
  import BO = BurstOutcomes
  import BG = BurstProgress
  import R = Reassembly
  import RRP = ReassemblyProofs
  import P = Replay
  import C = Codec
  import Core
  import SP = SelectiveProgress
  import TP = TwoParty

  // --------------------------------------------------------------- the sender

  // From the arrival of a repair request on, through any arrivals, polls and
  // routed messages, until another request for the burst: every transmission
  // of it carries exactly what the receiver lacked.
  lemma RepairPersists(cfg: Settings, core: Core.State, events: seq<Event>, i: nat, n: nat,
                       receiver: string, key: Key, a: R.Assembly, x: Packet, b: Burst, env: Env) returns (missing: set<nat>)
    requires Valid(cfg, events) && i < n <= |events| && ValidPeer(receiver) && events[i] == Arrive(receiver, x.body, env)
    requires InFlight(After(cfg, core, events, i).sender, receiver, key.transactionId) == Some(b)
    requires |b.fragments| == a.total <= MAX_FRAGMENTS && B.AsksFor(x, key, a)
    requires forall k :: i < k < n ==> !SP.AsksAgain(After(cfg, core, events, k), events[k], b.order)
    ensures B.JustMissing(missing, a)
    ensures BG.Governed(After(cfg, core, events, n).sender, b.order, missing, |After(cfg, core, events, i).sender.journal|)
  {
    hide BP.Inv, BG.Governed, SP.AsksAgain, BR.Accounted, BO.Orderly, BO.FarewellsJustified, Receive;
    hide InFlight, ValidPeer, B.AsksFor, BR.Repair;
    var s := After(cfg, core, events, i);
    SenderSafe(cfg, core, events, i, b.order);
    missing := TP.RequestGoverns(s, cfg, receiver, key, a, x, b, env);
    SP.RepairGovernsRun(cfg, core, events, i + 1, n, b.order, missing, |s.sender.journal|);
  }

  // ------------------------------------------------------------- the receiver

  // The receiver holds exactly the chunks in `seen`, its repair record says so,
  // and the transaction is not answered yet.
  ghost predicate Progressing(s: State, key: Key, chunks: seq<Bytes>, seen: set<int>) {
    && WellFormed(s.table) && WellFormed(s.cache) && WellFormed(s.tracker) && key !in s.cache.items
    && seen != {} && seen < Range(|chunks|) && RRP.Holds(s.table, key, RRP.Chunked(chunks), seen)
    && key in s.tracker.items && s.tracker.items[key].total == |chunks| && s.tracker.items[key].received == seen
  }

  // So it is on every run on which bookkeeping and reassembly agree.
  lemma AgreementProgresses(s: State, key: Key, chunks: seq<Bytes>, seen: set<int>)
    requires B.Agree(s) && WellFormed(s.cache) && seen != {} && RRP.Holds(s.table, key, RRP.Chunked(chunks), seen)
    ensures Progressing(s, key, chunks, seen)
  {
    hide WellFormed, Range;
    var a := s.table.items[key];
    assert |a.parts| == |a.parts.Keys|;
    if seen == Range(|chunks|) {
      assert false;
    }
  }

  // What the next repair request would ask for is what is not held.
  lemma StillLacking(s: State, key: Key, chunks: seq<Bytes>, seen: set<int>)
    requires Progressing(s, key, chunks, seen)
    ensures |Unheard(s.tracker.items[key])| == |chunks| - |seen|
    ensures forall i: nat :: i in Unheard(s.tracker.items[key]) <==> i < |chunks| && i !in seen
  {
    hide WellFormed, RRP.Holds;
    var lacking := Unheard(s.tracker.items[key]);
    LackingSize(lacking, seen, |chunks|);
  }

  lemma LackingSize(lacking: set<nat>, seen: set<int>, n: nat)
    requires seen <= Range(n) && forall i: nat :: i in lacking <==> i < n && i !in seen
    ensures |lacking| == n - |seen|
  {
    hide Range;
    var all: set<int> := lacking;
    assert all + seen == Range(n) && all !! seen;
    assert |all + seen| == |all| + |seen|;
  }

  lemma FragmentReceived(s: State, cfg: Settings, peer: string, body: string, f: Fragment, env: Env)
    requires cfg.Valid() && ValidPeer(peer) && StartsWith(body, "Q2") && ParseFragment(body) == Ok(f)
    requires R.Key(peer, f.transactionId) !in s.cache.items
    ensures var looked := Consulted(s, cfg, R.Key(peer, f.transactionId), env.now);
            Receive(s, cfg, peer, body, env) == HandleFragment(looked, cfg, peer, f, env, CommitId(body))
  {
    hide ParseFragment, ParseControl, ValidPeer, HandleFragment, CommitId;
    FragmentIsNoControl(body);
  }

  // The state in which the arriving fragment has been noted and added.
  function Added(s: State, cfg: Settings, peer: string, f: Fragment, now: nat): State
    requires cfg.Valid()
  {
    var key := R.Key(peer, f.transactionId);
    Consulted(s, cfg, key, now).(tracker := Noted(s.tracker, cfg, key, f, now), table := R.Add(s.table, cfg.bounds, peer, f, now).table)
  }

  // The fragments of `frame`, as the sender put them on the air.
  function OnAir(frame: Bytes, id: string, i: nat): string
    requires FragmentFrame(frame, id).Ok? && i < |FragmentFrame(frame, id).value|
  {
    FragmentText(FragmentFrame(frame, id).value[i])
  }

  lemma FramePieces(frame: Bytes, id: string)
    requires FragmentFrame(frame, id).Ok?
    ensures |FragmentFrame(frame, id).value| == |Chunks(frame)| <= MAX_FRAGMENTS
    ensures forall i :: 0 <= i < |Chunks(frame)| ==> FragmentFrame(frame, id).value[i] == FragmentOf(id, Chunks(frame), i)
    ensures C.DecodeFrameWithFlags(frame).Ok? && Concat(Chunks(frame)) == frame
  {
    hide C.DecodeFrameWithFlags, TransactionByte, Body;
    ChunksJoin(frame);
  }

  // One fragment of the frame arrives. Either it is not the last one lacking,
  // and the receiver holds it besides what it held; or the frame is complete,
  // leaves reassembly and is handed on, itself and nothing else.
  lemma ArrivalProgress(s: State, cfg: Settings, sender: string, frame: Bytes, id: string, seen: set<int>, i: nat, env: Env)
    requires cfg.Valid() && ValidPeer(sender) && FragmentFrame(frame, id).Ok? && i < |FragmentFrame(frame, id).value|
    requires Progressing(s, R.Key(sender, id), Chunks(frame), seen) && Undisturbed(s, cfg, R.Key(sender, id), env.now)
    ensures var key := R.Key(sender, id);
            var body := OnAir(frame, id, i);
            var r := Receive(s, cfg, sender, body, env);
            if seen + {i as int} != Range(|Chunks(frame)|) then
              r.outcome == Ok(FragmentHeld) && Progressing(r.state, key, Chunks(frame), seen + {i as int})
            else
              var held := Added(s, cfg, sender, FragmentFrame(frame, id).value[i], env.now);
              && key !in held.table.items
              && r == Settled(Assembled(held, cfg, key, frame, env, CommitId(body)), cfg, key, env.now)
  {
    hide ParseFragment, FragmentFrame, FragmentText, Chunks, Concat, ValidPeer, Receive, Assembled, R.Add;
    hide R.Prepared, Settled;
    hide WellFormed, RRP.Holds, CommitId, P.Recall, Noted, C.DecodeFrameWithFlags, FragmentOf, StartsWith;
    var key := R.Key(sender, id);
    var chunks := Chunks(frame);
    FramePieces(frame, id);
    TP.BurstFragmentParses(frame, id, i);
    var f := FragmentFrame(frame, id).value[i];
    FragmentReceived(s, cfg, sender, OnAir(frame, id, i), f, env);
    ChunkArrives(s, cfg, sender, id, chunks, seen, i, env.now);
    if seen + {i as int} != Range(|chunks|) {
      HeldOrDone(s, cfg, key, chunks, seen, f, env.now);
    }
    SettledHeld(Added(s, cfg, sender, f, env.now), cfg, key, env.now);
  }

  // Housekeeping on behalf of the fragment leaves its entry alone.
  ghost predicate Undisturbed(s: State, cfg: Settings, key: Key, now: nat)
    requires cfg.Valid()
  {
    key in s.table.items ==>
      var ready := R.Prepared(s.table, cfg.bounds, key, now);
      key in ready.items && ready.items[key] == s.table.items[key]
  }

  lemma SettledHeld(s: State, cfg: Settings, key: Key, now: nat)
    ensures Settled(Received(s, Ok(FragmentHeld)), cfg, key, now) == Received(s, Ok(FragmentHeld))
  {
  }

  lemma ChunkArrives(s: State, cfg: Settings, sender: string, id: string, chunks: seq<Bytes>, seen: set<int>, i: nat, now: nat)
    requires cfg.Valid() && i < |chunks| && C.DecodeFrameWithFlags(Concat(chunks)).Ok?
    requires Progressing(s, R.Key(sender, id), chunks, seen) && Undisturbed(s, cfg, R.Key(sender, id), now)
    ensures var key := R.Key(sender, id);
            var r := R.Add(s.table, cfg.bounds, sender, FragmentOf(id, chunks, i), now);
            && WellFormed(r.table)
            && (if seen + {i as int} == Range(|chunks|) then r.result == R.Complete(Concat(chunks)) && key !in r.table.items
                else r.result == R.Waiting && RRP.Holds(r.table, key, RRP.Chunked(chunks), seen + {i as int}))
  {
    hide WellFormed, RRP.Holds, R.Add, R.Prepared, C.DecodeFrameWithFlags, Concat;
    var e := RRP.Arrival(sender, FragmentOf(id, chunks, i), now);
    RRP.FragmentIsPiece(id, chunks, i);
    RRP.PieceStep(s.table, cfg.bounds, e, RRP.Chunked(chunks), seen);
    RRP.AddLocal(s.table, cfg.bounds, e);
  }

  lemma HeldOrDone(s: State, cfg: Settings, key: Key, chunks: seq<Bytes>, seen: set<int>, f: Fragment, now: nat)
    requires cfg.Valid() && Progressing(s, key, chunks, seen) && key.transactionId == f.transactionId
    requires f.total == |chunks| && 0 <= f.index < |chunks| && seen + {f.index} != Range(|chunks|)
    requires var t := R.Add(s.table, cfg.bounds, key.peer, f, now).table;
             WellFormed(t) && RRP.Holds(t, key, RRP.Chunked(chunks), seen + {f.index})
    ensures Progressing(Added(s, cfg, key.peer, f, now), key, chunks, seen + {f.index})
  {
    hide WellFormed, RRP.Holds, R.Add, Noted, P.Recall;
    B.NotedOthers(s.tracker, cfg, key, f, now);
    B.RecallKeepsForm(s.cache, cfg.limits, key, now);
    B.ConsultedOnly(s, cfg, key, now);
  }

  // ------------------------------------------------------- rounds of arrivals

  // What is held once the first n arrivals are.
  function Had(seen: set<int>, indices: seq<nat>, n: nat): set<int>
    requires n <= |indices|
  {
    if n == 0 then seen else Had(seen, indices, n - 1) + {indices[n - 1] as int}
  }

  // How many of the first n arrivals brought something not held by then.
  function Useful(seen: set<int>, indices: seq<nat>, n: nat): nat
    requires n <= |indices|
  {
    if n == 0 then 0
    else Useful(seen, indices, n - 1) + if indices[n - 1] in Had(seen, indices, n - 1) then 0 else 1
  }

  lemma {:induction false} HadGrows(seen: set<int>, indices: seq<nat>, bound: nat, n: nat)
    requires n <= |indices| && seen <= Range(bound) && forall j :: 0 <= j < |indices| ==> indices[j] < bound
    ensures Had(seen, indices, n) <= Range(bound)
    ensures |Had(seen, indices, n)| == |seen| + Useful(seen, indices, n)
  {
    hide Range;
    if n > 0 {
      HadGrows(seen, indices, bound, n - 1);
      OneMore(Had(seen, indices, n - 1), indices[n - 1]);
    }
  }

  lemma OneMore(a: set<int>, x: int)
    ensures |a + {x}| == |a| + if x in a then 0 else 1
  {
    if x in a {
      assert a + {x} == a;
    }
  }

  lemma FullOrLess(a: set<int>, bound: nat)
    requires a <= Range(bound)
    ensures a == Range(bound) <==> |a| == bound
  {
    hide Range;
    SubsetSize(a, Range(bound));
  }

  // Fragments of the frame arriving at the receiver.
  datatype Arrivals = Arrivals(sender: string, frame: Bytes, id: string, indices: seq<nat>, envs: seq<Env>) {
    predicate Valid() {
      && ValidPeer(sender) && FragmentFrame(frame, id).Ok? && |indices| == |envs|
      && forall j :: 0 <= j < |indices| ==> indices[j] < |FragmentFrame(frame, id).value|
    }

    function Key(): R.Key {
      R.Key(sender, id)
    }
  }

  // The receiver after the first n of them.
  function Arrived(s: State, cfg: Settings, a: Arrivals, n: nat): State
    requires cfg.Valid() && a.Valid() && n <= |a.indices|
  {
    if n == 0 then s
    else Receive(Arrived(s, cfg, a, n - 1), cfg, a.sender, OnAir(a.frame, a.id, a.indices[n - 1]), a.envs[n - 1]).state
  }

  // None of them finds the entry expired or evicted.
  ghost predicate Calm(s: State, cfg: Settings, a: Arrivals)
    requires cfg.Valid() && a.Valid()
  {
    forall j :: 0 <= j < |a.indices| ==> Undisturbed(Arrived(s, cfg, a, j), cfg, a.Key(), a.envs[j].now)
  }

  lemma ArrivedStep(s: State, cfg: Settings, a: Arrivals, seen: set<int>, n: nat)
    requires cfg.Valid() && a.Valid() && n < |a.indices| && Calm(s, cfg, a)
    requires Progressing(Arrived(s, cfg, a, n), a.Key(), Chunks(a.frame), seen) && seen + {a.indices[n] as int} != Range(|Chunks(a.frame)|)
    ensures Progressing(Arrived(s, cfg, a, n + 1), a.Key(), Chunks(a.frame), seen + {a.indices[n] as int})
  {
    hide FragmentFrame, Chunks, ValidPeer, Receive, Undisturbed, OnAir, Progressing, Settled, Assembled, Added, Range;
    ArrivalProgress(Arrived(s, cfg, a, n), cfg, a.sender, a.frame, a.id, seen, a.indices[n], a.envs[n]);
  }

  // Whatever order the fragments come in and however often: until the last one
  // lacking, the receiver holds and records exactly those that came, and each
  // arrival of one it lacked leaves one less to ask for.
  lemma {:induction false} RepairProgress(s: State, cfg: Settings, a: Arrivals, seen: set<int>, n: nat)
    requires cfg.Valid() && a.Valid() && n <= |a.indices| && Calm(s, cfg, a)
    requires Progressing(s, a.Key(), Chunks(a.frame), seen) && Had(seen, a.indices, n) != Range(|Chunks(a.frame)|)
    ensures Progressing(Arrived(s, cfg, a, n), a.Key(), Chunks(a.frame), Had(seen, a.indices, n))
  {
    hide FragmentFrame, Chunks, ValidPeer, Receive, OnAir, Progressing, Calm, Range;
    if n > 0 {
      HadShort(s, a, seen, n);
      RepairProgress(s, cfg, a, seen, n - 1);
      ArrivedStep(s, cfg, a, Had(seen, a.indices, n - 1), n - 1);
    }
  }

  lemma HadShort(s: State, a: Arrivals, seen: set<int>, n: nat)
    requires a.Valid() && 0 < n <= |a.indices|
    requires Progressing(s, a.Key(), Chunks(a.frame), seen) && Had(seen, a.indices, n) != Range(|Chunks(a.frame)|)
    ensures Had(seen, a.indices, n - 1) != Range(|Chunks(a.frame)|)
  {
    hide FragmentFrame, Chunks, ValidPeer, WellFormed, RRP.Holds, Range;
    FramePieces(a.frame, a.id);
    HadGrows(seen, a.indices, |Chunks(a.frame)|, n);
  }

  lemma LackingShrinks(s: State, cfg: Settings, a: Arrivals, seen: set<int>, n: nat)
    requires cfg.Valid() && a.Valid() && n <= |a.indices| && Calm(s, cfg, a)
    requires Progressing(s, a.Key(), Chunks(a.frame), seen) && Had(seen, a.indices, n) != Range(|Chunks(a.frame)|)
    ensures var t := Arrived(s, cfg, a, n);
            && a.Key() in s.tracker.items && a.Key() in t.tracker.items
            && |Unheard(t.tracker.items[a.Key()])| == |Unheard(s.tracker.items[a.Key()])| - Useful(seen, a.indices, n)
            && forall i: nat :: i in Unheard(t.tracker.items[a.Key()]) <==> i < |Chunks(a.frame)| && i !in Had(seen, a.indices, n)
  {
    hide FragmentFrame, Chunks, ValidPeer, WellFormed, RRP.Holds, Unheard, Arrived, Calm, Range;
    var total := |Chunks(a.frame)|;
    RepairProgress(s, cfg, a, seen, n);
    FramePieces(a.frame, a.id);
    HadGrows(seen, a.indices, total, n);
    StillLacking(s, a.Key(), Chunks(a.frame), seen);
    StillLacking(Arrived(s, cfg, a, n), a.Key(), Chunks(a.frame), Had(seen, a.indices, n));
  }

  // So after as many useful arrivals as there were fragments lacking, repair is
  // over: the last of them completes the frame, which is handed on unchanged.
  lemma RepairEnds(s: State, cfg: Settings, a: Arrivals, seen: set<int>, n: nat)
    requires cfg.Valid() && a.Valid() && n < |a.indices| && Calm(s, cfg, a)
    requires Progressing(s, a.Key(), Chunks(a.frame), seen)
    requires Useful(seen, a.indices, n) < |Unheard(s.tracker.items[a.Key()])| == Useful(seen, a.indices, n + 1)
    ensures var before, f, env := Arrived(s, cfg, a, n), FragmentFrame(a.frame, a.id).value[a.indices[n]], a.envs[n];
            var held, commitId := Added(before, cfg, a.sender, f, env.now), CommitId(OnAir(a.frame, a.id, a.indices[n]));
            && a.Key() !in held.table.items
            && Receive(before, cfg, a.sender, OnAir(a.frame, a.id, a.indices[n]), env)
            == Settled(Assembled(held, cfg, a.Key(), a.frame, env, commitId), cfg, a.Key(), env.now)
  {
    hide FragmentFrame, Chunks, ValidPeer, Receive, Progressing, Undisturbed, OnAir, Unheard, Settled;
    hide Assembled, Added, CommitId, Arrived, Range;
    var total := |Chunks(a.frame)|;
    LackingAtStart(s, a, seen);
    FramePieces(a.frame, a.id);
    HadGrows(seen, a.indices, total, n);
    HadGrows(seen, a.indices, total, n + 1);
    FullOrLess(Had(seen, a.indices, n), total);
    FullOrLess(Had(seen, a.indices, n + 1), total);
    RepairProgress(s, cfg, a, seen, n);
    ArrivalProgress(Arrived(s, cfg, a, n), cfg, a.sender, a.frame, a.id, Had(seen, a.indices, n), a.indices[n], a.envs[n]);
  }

  lemma LackingAtStart(s: State, a: Arrivals, seen: set<int>)
    requires Progressing(s, a.Key(), Chunks(a.frame), seen)
    ensures a.Key() in s.tracker.items && seen <= Range(|Chunks(a.frame)|)
    ensures |Unheard(s.tracker.items[a.Key()])| == |Chunks(a.frame)| - |seen|
  {
    hide WellFormed, RRP.Holds, Unheard, Chunks;
    StillLacking(s, a.Key(), Chunks(a.frame), seen);
  }
}
