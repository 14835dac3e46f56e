// Runs of the store from a fresh database: numbering, keyed sends, deliveries.
module MailboxRuns {
  import opened Prelude
  import opened Mailbox
  import opened MailboxProofs

  datatype Commit =
    | Plain(createdAt: int, author: Name, recipient: Name, body: Bytes, clock: int)
    | Once(createdAt: int, author: Name, recipient: Name, body: Bytes, key: string, requestHash: string, clock: int)
    | Mark(delivery: DeliveryKey, status: Status, deliveredAt: Option<int>)

  function Outcome(t: Tables, c: Commit): Result<Accepted, StoreError>
    requires c.Once?
  {
    StoreKeyed(t, c.createdAt, c.author, c.recipient, c.body, c.key, c.requestHash, c.clock)
  }

  // One transaction; a failure leaves the tables as they were.
  function Apply(t: Tables, c: Commit): Tables {
    match c
    case Plain(createdAt, author, recipient, body, clock) =>
      (match StoreMessage(t, createdAt, author, recipient, body, clock)
       case Ok(a) => a.tables
       case Err(_) => t)
    case Once(_, _, _, _, _, _, _) =>
      (match Outcome(t, c)
       case Ok(a) => a.tables
       case Err(_) => t)
    case Mark(delivery, status, deliveredAt) =>
      (match SetDelivery(t, delivery, status, deliveredAt)
       case Ok(m) => m.tables
       case Err(_) => t)
  }

  function After(commits: seq<Commit>, n: nat): Tables
    requires n <= |commits|
  {
    if n == 0 then EMPTY else Apply(After(commits, n - 1), commits[n - 1])
  }

  lemma ApplyKeepsInv(t: Tables, c: Commit)
    requires Inv(t)
    ensures Inv(Apply(t, c)) && Extends(t, Apply(t, c))
  {
    hide Inv, StoreMessage, StoreKeyed, SetDelivery;
    match c
    case Plain(createdAt, author, recipient, body, clock) =>
      StoreKeepsInv(t, createdAt, author, recipient, body, clock);
    case Once(createdAt, author, recipient, body, key, hash, clock) =>
      StoreKeyedKeepsInv(t, createdAt, author, recipient, body, key, hash, clock);
    case Mark(delivery, status, deliveredAt) =>
      SetDeliveryKeepsInv(t, delivery, status, deliveredAt);
  }

  lemma {:induction false} RunKeepsInv(commits: seq<Commit>, n: nat)
    requires n <= |commits|
    ensures Inv(After(commits, n))
  {
    hide Inv, Apply;
    if n == 0 {
      EmptyInv();
    } else {
      RunKeepsInv(commits, n - 1);
      ApplyKeepsInv(After(commits, n - 1), commits[n - 1]);
    }
  }

  lemma {:induction false} RunExtends(commits: seq<Commit>, i: nat, n: nat)
    requires i <= n <= |commits|
    ensures Extends(After(commits, i), After(commits, n))
    decreases n - i
  {
    hide Inv, Apply;
    if i < n {
      RunExtends(commits, i, n - 1);
      RunKeepsInv(commits, n - 1);
      ApplyKeepsInv(After(commits, n - 1), commits[n - 1]);
    }
  }

  // Whatever was committed, each mailbox holds every sequence from 1 to its
  // high-water exactly once and no other, in insertion order.
  lemma MailboxesAreGapless(commits: seq<Commit>, recipient: Name, sequence: nat)
    ensures var t := After(commits, |commits|);
            && (1 <= sequence <= High(t, recipient) <==>
                  exists i :: 0 <= i < |t.messages| && At(t, i, recipient, sequence))
            && (forall i, j :: 0 <= i < j < |t.messages| && At(t, i, recipient, sequence) ==> !At(t, j, recipient, sequence))
            && (forall i :: 0 <= i < |t.messages| ==> t.messages[i].apiSequence == i + 1)
            && t.apiHigh == |t.messages|
  {
    var t := After(commits, |commits|);
    RunKeepsInv(commits, |commits|);
    GaplessTables(t, recipient, sequence);
  }

  ghost predicate At(t: Tables, i: nat, recipient: Name, sequence: nat)
    requires i < |t.messages|
  {
    t.messages[i].recipient == recipient && t.messages[i].sequence == sequence
  }

  lemma GaplessTables(t: Tables, recipient: Name, sequence: nat)
    requires Inv(t)
    ensures 1 <= sequence <= High(t, recipient) <==>
              exists i :: 0 <= i < |t.messages| && At(t, i, recipient, sequence)
    ensures forall i, j :: 0 <= i < j < |t.messages| && At(t, i, recipient, sequence) ==> !At(t, j, recipient, sequence)
  {
    hide High;
    forall i | 0 <= i < |t.messages| && At(t, i, recipient, sequence)
      ensures 1 <= sequence <= High(t, recipient)
    {
      SequenceWithinHigh(t, i);
    }
    forall i, j | 0 <= i < j < |t.messages| && At(t, i, recipient, sequence)
      ensures !At(t, j, recipient, sequence)
    {
      if At(t, j, recipient, sequence) {
        SequencesIncrease(t, i, j);
      }
    }
    if 1 <= sequence <= High(t, recipient) {
      HighIsCount(t, recipient);
      var i := Holder(t, recipient, sequence, |t.messages|);
      assert At(t, i, recipient, sequence);
    }
  }

  lemma {:induction false} Holder(t: Tables, recipient: Name, sequence: nat, n: nat) returns (i: nat)
    requires Inv(t) && n <= |t.messages| && 1 <= sequence <= Count(t.messages, recipient, n)
    ensures i < n && At(t, i, recipient, sequence)
  {
    hide Inv;
    RowFact(t, n - 1);
    if sequence <= Count(t.messages, recipient, n - 1) {
      i := Holder(t, recipient, sequence, n - 1);
    } else {
      i := n - 1;
    }
  }

  // -------------------------------------------------------------- keyed sends

  // The key is bound to this request and this message.
  ghost predicate Bound(t: Tables, k: SendKey, hash: string, m: Row) {
    k in t.keyed && t.keyed[k] == Keyed(hash, m.recipient, m.sequence) && m in t.messages
  }

  lemma AcceptedIsBound(t: Tables, c: Commit)
    requires Inv(t) && c.Once? && Outcome(t, c).Ok?
    ensures Bound(Apply(t, c), SendKey(c.author, c.key), c.requestHash, Outcome(t, c).value.message)
  {
    hide Inv, Insertable;
    var k := SendKey(c.author, c.key);
    if k in t.keyed {
      KeyedRowFound(t, k);
    }
  }

  lemma BoundStays(t: Tables, c: Commit, k: SendKey, hash: string, m: Row)
    requires Inv(t) && Bound(t, k, hash, m)
    ensures Bound(Apply(t, c), k, hash, m)
  {
    hide Inv, Insertable, GetMessage, MayChange;
    ApplyKeepsInv(t, c);
  }

  // From then on a repetition returns that very message and changes nothing,
  // and a different request under the key is refused.
  lemma BoundAnswers(t: Tables, c: Commit, hash: string, m: Row)
    requires Inv(t) && c.Once? && Bound(t, SendKey(c.author, c.key), hash, m)
    ensures Outcome(t, c) == if c.requestHash == hash then Ok(Accepted(t, m, false)) else Err(KeyConflict)
    ensures Apply(t, c) == t
  {
    hide Inv, Insertable;
    RowIsFound(t, m);
  }

  lemma RowIsFound(t: Tables, m: Row)
    requires Inv(t) && m in t.messages
    ensures GetMessage(t, m.recipient, m.sequence) == Some(m)
  {
    hide Inv;
    var r := GetMessage(t, m.recipient, m.sequence);
    var i :| 0 <= i < |t.messages| && t.messages[i] == m;
    var j :| 0 <= j < |t.messages| && t.messages[j] == r.value;
    RowsAreUnique(t, i, j);
  }

  lemma {:induction false} BoundThroughRun(commits: seq<Commit>, i: nat, n: nat, k: SendKey, hash: string, m: Row)
    requires i <= n <= |commits| && Bound(After(commits, i), k, hash, m)
    ensures Bound(After(commits, n), k, hash, m)
    decreases n - i
  {
    hide Inv, Apply, Bound;
    if i < n {
      BoundThroughRun(commits, i, n - 1, k, hash, m);
      RunKeepsInv(commits, n - 1);
      BoundStays(After(commits, n - 1), commits[n - 1], k, hash, m);
    }
  }

  // Over any run, once a keyed send is accepted the key's later sends store
  // nothing: the same request gets the first message back, another a conflict.
  lemma KeyedSendIsIdempotent(commits: seq<Commit>, i: nat, j: nat)
    requires i < j < |commits| && commits[i].Once? && commits[j].Once?
    requires commits[i].author == commits[j].author && commits[i].key == commits[j].key
    requires Outcome(After(commits, i), commits[i]).Ok?
    ensures var first := Outcome(After(commits, i), commits[i]).value.message;
            var t := After(commits, j);
            && Outcome(t, commits[j])
               == (if commits[j].requestHash == commits[i].requestHash then Ok(Accepted(t, first, false)) else Err(KeyConflict))
            && After(commits, j + 1) == t
  {
    hide Inv, Outcome, Bound, Apply;
    var first := Outcome(After(commits, i), commits[i]).value.message;
    RunKeepsInv(commits, i);
    RunKeepsInv(commits, j);
    AcceptedIsBound(After(commits, i), commits[i]);
    BoundThroughRun(commits, i + 1, j, SendKey(commits[i].author, commits[i].key), commits[i].requestHash, first);
    BoundAnswers(After(commits, j), commits[j], commits[i].requestHash, first);
  }

  // --------------------------------------------------------------- deliveries

  ghost predicate HasStatus(t: Tables, key: DeliveryKey, status: Status) {
    key in t.deliveries && t.deliveries[key].status == status
  }

  lemma DeliveredStep(t: Tables, c: Commit, key: DeliveryKey)
    requires key in t.deliveries
    ensures var u := Apply(t, c);
            && key in u.deliveries
            && (HasStatus(t, key, Delivered) ==> u.deliveries[key] == t.deliveries[key])
            && (HasStatus(t, key, Failed) ==> !HasStatus(u, key, Delivered))
  {
    hide Insertable, GetMessage;
  }

  function StatusOf(t: Tables, key: DeliveryKey): Option<Status> {
    if key in t.deliveries then Some(t.deliveries[key].status) else None
  }

  // Nothing follows a delivery, and a failure is not followed by one at once.
  predicate MayFollow(before: Option<Status>, after: Status) {
    match before
    case None => true
    case Some(Pending) => true
    case Some(Failed) => after != Delivered
    case Some(Delivered) => false
  }

  // The mark names a message that is stored, or tracked, and a usable time.
  ghost predicate Markable(t: Tables, key: DeliveryKey, at: Option<int>) {
    && (at.Some? ==> at.value >= 0)
    && (key in t.deliveries || exists m :: m in t.messages && m.recipient == key.recipient && m.sequence == key.sequence)
  }

  // The mark takes effect.
  ghost predicate Takes(t: Tables, key: DeliveryKey, status: Status, at: Option<int>) {
    Markable(t, key, at) && MayFollow(StatusOf(t, key), status)
  }

  // A mark fails exactly when it names nothing stored or a bad time; it is
  // recorded, with its time, exactly when it may follow what was recorded, and
  // touches nothing else.
  lemma MarkIsExact(t: Tables, key: DeliveryKey, status: Status, at: Option<int>)
    ensures var r := SetDelivery(t, key, status, at);
            && (r.Ok? <==> Markable(t, key, at)) && (r.Err? ==> r.error == Integrity)
            && (r.Ok? ==> (r.value.changed <==> Takes(t, key, status, at)))
            && Apply(t, Mark(key, status, at))
               == if Takes(t, key, status, at) then t.(deliveries := t.deliveries[key := Delivery(status, at)]) else t
  {
  }

  lemma OtherCommitsKeep(t: Tables, c: Commit, key: DeliveryKey)
    requires key in t.deliveries && (c.Mark? && c.delivery == key ==> !Takes(t, key, c.status, c.deliveredAt))
    ensures var u := Apply(t, c);
            key in u.deliveries && u.deliveries[key] == t.deliveries[key]
  {
    hide Insertable, GetMessage, Takes;
    if c.Mark? {
      MarkIsExact(t, c.delivery, c.status, c.deliveredAt);
    }
  }

  // The last mark to take effect is what the store says, and its time.
  lemma {:induction false} LastMarkHolds(commits: seq<Commit>, key: DeliveryKey, status: Status, at: Option<int>, i: nat, n: nat)
    requires i < n <= |commits| && commits[i] == Mark(key, status, at) && Takes(After(commits, i), key, status, at)
    requires forall j :: i < j < n && commits[j].Mark? && commits[j].delivery == key ==>
               !Takes(After(commits, j), key, commits[j].status, commits[j].deliveredAt)
    ensures key in After(commits, n).deliveries && After(commits, n).deliveries[key] == Delivery(status, at)
  {
    hide Apply, Takes;
    if n == i + 1 {
      MarkIsExact(After(commits, i), key, status, at);
    } else {
      LastMarkHolds(commits, key, status, at, i, n - 1);
      OtherCommitsKeep(After(commits, n - 1), commits[n - 1], key);
    }
  }

  // A delivered message stays delivered, with its time of delivery.
  lemma {:induction false} DeliveredIsFinal(commits: seq<Commit>, key: DeliveryKey, i: nat, n: nat)
    requires i <= n <= |commits| && HasStatus(After(commits, i), key, Delivered)
    ensures key in After(commits, n).deliveries
         && After(commits, n).deliveries[key] == After(commits, i).deliveries[key]
    decreases n - i
  {
    hide Apply;
    if i < n {
      DeliveredIsFinal(commits, key, i, n - 1);
      DeliveredStep(After(commits, n - 1), commits[n - 1], key);
    }
  }

  // Between a failure and a delivery the message was pending again.
  lemma {:induction false} FailedNeedsRetry(commits: seq<Commit>, key: DeliveryKey, i: nat, n: nat)
    requires i <= n <= |commits| && HasStatus(After(commits, i), key, Failed)
    ensures key in After(commits, n).deliveries
    ensures HasStatus(After(commits, n), key, Delivered) ==>
              exists k :: i < k < n && HasStatus(After(commits, k), key, Pending)
    decreases n - i
  {
    hide Apply;
    if i < n {
      FailedNeedsRetry(commits, key, i, n - 1);
      DeliveredStep(After(commits, n - 1), commits[n - 1], key);
    }
  }
}
