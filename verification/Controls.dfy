// What an acknowledgement and a repair request do to the burst they name, and
// to nothing else.
module Controls {
  import opened Prelude
  import opened Carriage
  import opened Control
  import opened Burst
  import opened Selective
  import BP = BurstProofs
  import BR = BurstRuns
  import SP = SelectiveProofs

  // The burst in flight to the peer under the id.
  predicate Names(s: Sender, peer: string, id: string, b: Burst) {
    b in s.active && b.peer == peer && b.transactionId == id
  }

  ghost predicate NamesNone(s: Sender, peer: string, id: string) {
    forall b :: !Names(s, peer, id, b)
  }

  lemma InFlightIs(s: Sender, p: Policy, peer: string, id: string, b: Burst)
    requires BP.Inv(s, p)
    ensures Names(s, peer, id, b) <==> InFlight(s, peer, id) == Some(b)
  {
    hide BP.Unsent, BP.Flying, Load, BP.InOrder;
    var a := ActiveOf(s.active, peer);
    if Names(s, peer, id, b) {
      SameBurst(s.active, a.value, b);
    }
  }

  lemma SameBurst(active: seq<Burst>, a: Burst, b: Burst)
    requires BP.Solo(active) && a in active && b in active && a.peer == b.peer
    ensures a == b
  {
  }

  lemma NoneInFlight(s: Sender, p: Policy, peer: string, id: string)
    requires BP.Inv(s, p)
    ensures NamesNone(s, peer, id) <==> InFlight(s, peer, id) == None
  {
    hide BP.Inv, InFlight, Names;
    if InFlight(s, peer, id).Some? {
      InFlightIs(s, p, peer, id, InFlight(s, peer, id).value);
    } else {
      forall b
        ensures !Names(s, peer, id, b)
      {
        InFlightIs(s, p, peer, id, b);
      }
    }
  }

  // Every burst but `b` is where it was.
  ghost predicate OthersStay(s: Sender, t: Sender, b: Burst) {
    && t == s.(active := t.active, journal := t.journal)
    && forall x: Burst :: x.order != b.order ==> (x in t.active <==> x in s.active)
  }

  // `b` was confirmed: it is gone, and Core is told if it carried a delivery.
  ghost predicate Confirms(s: Sender, t: Sender, b: Burst) {
    && OthersStay(s, t, b) && !BR.LiveOrder(t, b.order)
    && t.journal == s.journal + [Left(b, Confirmed)]
                    + (if b.delivery.Some? then [Marked(MarkDelivered(b.delivery.value))] else [])
  }

  lemma LeaveConfirms(s: Sender, p: Policy, b: Burst)
    requires BP.Inv(s, p) && b in s.active
    ensures Confirms(s, Leave(s, b, Confirmed), b)
  {
    hide BP.Inv, Kept;
    BR.LeaveLives(s, p, b, Confirmed, b.order);
  }

  // A control message is no fragment, so the guard lets it by.
  lemma ControlReceived(s: State, cfg: Settings, peer: string, body: string, env: Env)
    requires cfg.Valid() && ValidPeer(peer) && ParseControl(body).Some?
    ensures Receive(s, cfg, peer, body, env) == HandleControl(s, peer, ParseControl(body).value)
  {
    hide ParseControl, ParseFragment, HandleControl, ValidPeer;
    SP.ControlOrFragment(body);
  }

  // An A2 that names the burst in flight to its sender ends that burst: it is
  // confirmed, Core hears of its delivery, and nothing else changes. Any other
  // A2 changes nothing at all.
  lemma AckEndsBurst(s: State, cfg: Settings, peer: string, body: string, id: string, env: Env)
    requires cfg.Valid() && BP.Inv(s.sender, cfg.policy) && ValidPeer(peer) && ParseControl(body) == Some(Ack(id))
    ensures var r := Receive(s, cfg, peer, body, env);
            && r.state == s.(sender := r.state.sender)
            && (forall b :: Names(s.sender, peer, id, b) ==>
                  r.outcome == Ok(Acknowledged) && Confirms(s.sender, r.state.sender, b))
            && (NamesNone(s.sender, peer, id) ==> r == Received(s, Ok(Ignored)))
  {
    hide BP.Inv, ParseControl, Receive, InFlight, Leave, Names, Confirms, ValidPeer;
    ControlReceived(s, cfg, peer, body, env);
    NoneInFlight(s.sender, cfg.policy, peer, id);
    BR.InFlightIsActive(s.sender, peer, id);
    forall b | Names(s.sender, peer, id, b)
      ensures InFlight(s.sender, peer, id) == Some(b) && Confirms(s.sender, Leave(s.sender, b, Confirmed), b)
    {
      InFlightIs(s.sender, cfg.policy, peer, id, b);
      LeaveConfirms(s.sender, cfg.policy, b);
    }
  }

  // `b` is to be repaired with exactly `wanted`, and is otherwise as it was.
  ghost predicate PutsUnderRepair(s: Sender, t: Sender, b: Burst, wanted: set<nat>) {
    && OthersStay(s, t, b) && t.journal == s.journal
    && (forall x :: x in t.active && x.order == b.order <==>
                      x == b.(requested := Some(wanted), repairActive := true, repairIndices := Some(wanted)))
  }

  lemma AmendRepairs(s: Sender, p: Policy, b: Burst, wanted: set<nat>)
    requires BP.Inv(s, p) && b in s.active
    ensures PutsUnderRepair(s, Amend(s, Repairing(b, wanted)), b, wanted)
  {
    hide BP.Inv, Replaced, BP.Solo;
    BP.SoloActive(s, p);
    BP.ReplacedMembers(s.active, b, Repairing(b, wanted));
  }

  // An N2 that names the burst in flight and asks for fragments it has puts it
  // under repair for exactly those; any other N2 changes nothing.
  lemma NackRepairsBurst(s: State, cfg: Settings, peer: string, body: string, id: string, missing: set<nat>, env: Env)
    requires cfg.Valid() && BP.Inv(s.sender, cfg.policy) && ValidPeer(peer) && ParseControl(body) == Some(Missing(id, missing))
    ensures var r := Receive(s, cfg, peer, body, env);
            && r.state == s.(sender := r.state.sender)
            && (forall b :: Names(s.sender, peer, id, b) ==>
                  var wanted := set i | i in missing && i < |b.fragments|;
                  if wanted == {} then r == Received(s, Ok(Ignored))
                  else r.outcome == Ok(RepairRequested) && PutsUnderRepair(s.sender, r.state.sender, b, wanted))
            && (NamesNone(s.sender, peer, id) ==> r == Received(s, Ok(Ignored)))
  {
    hide BP.Inv, ParseControl, Receive, InFlight, Amend, Names, PutsUnderRepair, ValidPeer;
    ControlReceived(s, cfg, peer, body, env);
    NoneInFlight(s.sender, cfg.policy, peer, id);
    BR.InFlightIsActive(s.sender, peer, id);
    forall b | Names(s.sender, peer, id, b)
      ensures InFlight(s.sender, peer, id) == Some(b)
      ensures PutsUnderRepair(s.sender, Amend(s.sender, Repairing(b, Wanted(b, missing))), b, Wanted(b, missing))
    {
      InFlightIs(s.sender, cfg.policy, peer, id, b);
      AmendRepairs(s.sender, cfg.policy, b, Wanted(b, missing));
    }
  }
}
