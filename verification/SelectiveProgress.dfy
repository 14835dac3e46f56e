// What the transmit side promises of bursts, over whole runs of the adapter:
// their lives are bounded, and repair requests govern what is sent.
module SelectiveProgress {
  import opened Prelude
  import opened Carriage
  import opened Control
  import opened Burst
  import opened Selective
  import opened SelectiveProofs
  import Core
  import BP = BurstProofs
  import BR = BurstRuns
  import BO = BurstOutcomes
  import BG = BurstProgress

  lemma {:induction false} RunGrows(s: Sender, p: Policy, moves: seq<BR.Event>)
    requires BP.Inv(s, p) && p.Valid()
    ensures BP.Inv(Run(s, p, moves), p) && s.journal <= Run(s, p, moves).journal
  {
    hide BP.Inv, BR.Step;
    if moves == [] {
    } else {
      var shorter, last := moves[..|moves| - 1], moves[|moves| - 1];
      RunGrows(s, p, shorter);
      BR.StepKeepsInv(Run(s, p, shorter), p, last);
      BO.StepWrites(Run(s, p, shorter), p, last);
    }
  }

  // ------------------------------------------------------------ bounded lives

  // A poll that does not raise, late enough and allowed by the rate limit to
  // act on burst `order`.
  ghost predicate ActsOn(s: State, cfg: Settings, e: Event, order: nat) {
    e.Tick? && !Raises(s, cfg, e.now) && BG.ActsOn(s.sender, cfg.policy, BR.Poll(e.now), order)
  }

  // How many of the first n events are such polls.
  ghost function Acts(cfg: Settings, core: Core.State, events: seq<Event>, order: nat, n: nat): nat
    requires Valid(cfg, events) && n <= |events|
  {
    if n == 0 then 0
    else Acts(cfg, core, events, order, n - 1)
         + if ActsOn(After(cfg, core, events, n - 1), cfg, events[n - 1], order) then 1 else 0
  }

  lemma StepCounts(s: State, cfg: Settings, e: Event, order: nat)
    requires cfg.Valid() && ValidEvent(e) && BP.Inv(s.sender, cfg.policy) && BR.Accounted(s.sender, cfg.policy, order)
    ensures var before, after := s.sender.journal, Step(s, cfg, e).sender.journal;
            && BR.Sends(before, order) <= BR.Sends(after, order) && BR.Exits(before, order) <= BR.Exits(after, order)
            && (ActsOn(s, cfg, e, order) ==>
                  && 1 <= BR.Sends(before, order) && BR.Exits(before, order) == 0
                  && BR.Sends(after, order) + BR.Exits(after, order) >= BR.Sends(before, order) + 1)
  {
    hide BP.Inv, Step, Run, Raises, BR.Sends, BR.Exits, BG.ActsOn, BR.Accounted, AllPermitted, ParseControl;
    var moves := StepMoves(s, cfg, e);
    RunGrows(s.sender, cfg.policy, moves);
    BG.CountPrefix(s.sender.journal, Step(s, cfg, e).sender.journal, order);
    if ActsOn(s, cfg, e, order) {
      RunOne(s.sender, cfg.policy, BR.Poll(e.now));
      BG.ActMeansProgress(s.sender, cfg.policy, BR.Poll(e.now), order);
    }
  }

  lemma {:induction false} ActsAreCounted(cfg: Settings, core: Core.State, events: seq<Event>, order: nat, n: nat)
    requires Valid(cfg, events) && n <= |events|
    ensures var journal := After(cfg, core, events, n).sender.journal;
            Acts(cfg, core, events, order, n) == 0
            || Acts(cfg, core, events, order, n) + 1 <= BR.Sends(journal, order) + BR.Exits(journal, order)
  {
    hide BP.Inv, Step, ActsOn, BR.Sends, BR.Exits, BR.Accounted, BO.Orderly, BO.FarewellsJustified;
    if n == 0 {
    } else {
      ActsAreCounted(cfg, core, events, order, n - 1);
      SenderSafe(cfg, core, events, n - 1, order);
      StepCounts(After(cfg, core, events, n - 1), cfg, events[n - 1], order);
    }
  }

  // Whatever arrives, is routed or polled, a burst that is never confirmed
  // outlives at most maxAttempts - 1 polls past its deadline and rate limit;
  // the next one finds it gone.
  lemma LivesAreBounded(cfg: Settings, core: Core.State, events: seq<Event>, order: nat, n: nat)
    requires Valid(cfg, events) && n <= |events|
    ensures Acts(cfg, core, events, order, n) <= cfg.policy.maxAttempts
    ensures BR.LiveOrder(After(cfg, core, events, n).sender, order) ==> Acts(cfg, core, events, order, n) < cfg.policy.maxAttempts
  {
    hide BP.Inv, Acts, BR.Sends, BR.Exits, After, BO.Orderly, BO.FarewellsJustified;
    ActsAreCounted(cfg, core, events, order, n);
    SenderSafe(cfg, core, events, n, order);
  }

  // ----------------------------------------------------------- repair requests

  // The event is an N2 that asks for something of burst `order`.
  ghost predicate AsksAgain(s: State, e: Event, order: nat) {
    && e.Arrive? && ParseControl(e.body).Some? && ParseControl(e.body).value.Missing?
    && var asked := ParseControl(e.body).value;
       BG.RequestsAgain(s.sender, BR.Nacked(e.peer, asked.transactionId, asked.indices), order)
  }

  lemma {:induction false} MovesGoverned(s: Sender, p: Policy, moves: seq<BR.Event>, order: nat, wanted: set<nat>, start: nat)
    requires BP.Inv(s, p) && p.Valid() && BG.Governed(s, order, wanted, start)
    requires forall i :: 0 <= i < |moves| ==> !moves[i].Nacked?
    ensures BG.Governed(Run(s, p, moves), order, wanted, start)
  {
    hide BP.Inv, BR.Step, BG.Governed;
    if moves == [] {
    } else {
      var shorter, last := moves[..|moves| - 1], moves[|moves| - 1];
      MovesGoverned(s, p, shorter, order, wanted, start);
      RunGrows(s, p, shorter);
      BG.StepGoverned(Run(s, p, shorter), p, last, order, wanted, start);
    }
  }

  lemma StepGoverned(s: State, cfg: Settings, e: Event, order: nat, wanted: set<nat>, start: nat)
    requires cfg.Valid() && ValidEvent(e) && BP.Inv(s.sender, cfg.policy)
    requires BG.Governed(s.sender, order, wanted, start) && !AsksAgain(s, e, order)
    ensures BG.Governed(Step(s, cfg, e).sender, order, wanted, start)
  {
    hide BP.Inv, Step, BR.Step, BG.Governed, BG.RequestsAgain, Run, ParseControl, ParseFragment, Raises;
    var moves := StepMoves(s, cfg, e);
    if i :| 0 <= i < |moves| && moves[i].Nacked? {
      assert Permitted(e, moves[i]);
      assert moves == [moves[i]];
      RunOne(s.sender, cfg.policy, moves[i]);
      BG.StepGoverned(s.sender, cfg.policy, moves[i], order, wanted, start);
    } else {
      MovesGoverned(s.sender, cfg.policy, moves, order, wanted, start);
    }
  }

  // From one repair request until the next for that burst, every transmission
  // of it, whatever the adapter does meanwhile, carries exactly the fragments
  // asked for.
  lemma {:induction false} RepairGovernsRun(cfg: Settings, core: Core.State, events: seq<Event>, i: nat, n: nat,
                                            order: nat, wanted: set<nat>, start: nat)
    requires Valid(cfg, events) && i <= n <= |events|
    requires BG.Governed(After(cfg, core, events, i).sender, order, wanted, start)
    requires forall k :: i <= k < n ==> !AsksAgain(After(cfg, core, events, k), events[k], order)
    ensures BG.Governed(After(cfg, core, events, n).sender, order, wanted, start)
    decreases n - i
  {
    hide BP.Inv, Step, BG.Governed, AsksAgain, BR.Accounted, BO.Orderly, BO.FarewellsJustified;
    if i < n {
      RepairGovernsRun(cfg, core, events, i, n - 1, order, wanted, start);
      SenderSafe(cfg, core, events, n - 1, order);
      StepGoverned(After(cfg, core, events, n - 1), cfg, events[n - 1], order, wanted, start);
    }
  }
}
