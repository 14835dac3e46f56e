// Runs of the core: any mix of direct sends, request frames and delivery marks.
module CoreRuns {
  import opened Prelude
  import opened Text
  import opened Core
  import opened CoreProofs
  import C = Codec
  import M = Mailbox
  import MP = MailboxProofs
  import MR = MailboxRuns

  datatype Event =
    | Send(author: Bytes, recipient: Bytes, body: Bytes, createdAt: int, keying: Keying, clock: int)
    | Frame(callsign: Bytes, frame: Bytes, clock: int, text: PlainText)
    | Deliver(delivery: M.DeliveryKey, status: M.Status, deliveredAt: Option<int>)

  function SendOf(s: State, e: Event): Sent
    requires e.Send?
  {
    SendMessage(s, e.author, e.recipient, e.body, e.createdAt, e.keying, e.clock)
  }

  function Step(board: Board, s: State, e: Event): State {
    match e
    case Send(_, _, _, _, _, _) => SendOf(s, e).state
    case Frame(callsign, frame, clock, text) => HandleFrame(s, board, callsign, frame, clock, text).state
    case Deliver(delivery, status, at) => s.(tables := MR.Apply(s.tables, MR.Mark(delivery, status, at)))
  }

  function After(board: Board, events: seq<Event>, n: nat): State
    requires n <= |events|
  {
    if n == 0 then State(M.EMPTY, []) else Step(board, After(board, events, n - 1), events[n - 1])
  }

  lemma StepKeepsInv(board: Board, s: State, e: Event)
    requires CoreInv(s)
    ensures CoreInv(Step(board, s, e))
  {
    hide CoreInv, SendMessage, HandleFrame, C.DecodeFrame, Answered, ReadBack, ClockFails;
    match e
    case Send(author, recipient, body, createdAt, keying, clock) =>
      SendIsAtomic(s, author, recipient, body, createdAt, keying, clock);
    case Frame(callsign, frame, clock, text) => HandlingIsClosed(s, board, callsign, frame, clock, text);
    case Deliver(delivery, status, at) => DeliverKeepsInv(s, delivery, status, at);
  }

  lemma DeliverKeepsInv(s: State, delivery: M.DeliveryKey, status: M.Status, at: Option<int>)
    requires CoreInv(s)
    ensures CoreInv(s.(tables := MR.Apply(s.tables, MR.Mark(delivery, status, at))))
  {
    hide MP.Inv, RowOk, M.SetDelivery, M.ConversationSequence;
    MP.SetDeliveryKeepsInv(s.tables, delivery, status, at);
    var t := MR.Apply(s.tables, MR.Mark(delivery, status, at));
    forall i | 0 <= i < |s.rounds|
      ensures Announce(t, s.tables.messages[i]) == Announce(s.tables, s.tables.messages[i])
    {
      SameMessagesAnnounce(s.tables, t, s.tables.messages[i]);
    }
  }

  lemma SameMessagesAnnounce(a: M.Tables, b: M.Tables, m: M.Row)
    requires a.messages == b.messages
    ensures Announce(a, m) == Announce(b, m)
  {
  }

  // Reachable cores: every message ever stored is intact, can be sent to a
  // client, and had exactly one listener round.
  lemma {:induction false} RunKeepsCoreInv(board: Board, events: seq<Event>, n: nat)
    requires n <= |events|
    ensures CoreInv(After(board, events, n))
  {
    hide CoreInv, Step;
    if n == 0 {
      FreshCoreInv();
    } else {
      RunKeepsCoreInv(board, events, n - 1);
      StepKeepsInv(board, After(board, events, n - 1), events[n - 1]);
    }
  }

  // ----------------------------------------------------- one send, one frame

  // STORED is answered exactly when the frame's message was committed: one row
  // and one listener round more. Every other answer leaves the core as it was.
  lemma StoredMeansStored(s: State, board: Board, callsign: Bytes, frame: Bytes, clock: int, text: PlainText)
    requires CoreInv(s)
    ensures var a := Answered(s, board, callsign, frame, clock, text);
            var request := C.DecodeFrame(frame);
            if a.answer == Ok([C.Stored]) then
              && request.Ok? && request.value.SendMessage?
              && |a.state.tables.messages| == |s.tables.messages| + 1 && |a.state.rounds| == |s.rounds| + 1
              && s.tables.messages <= a.state.tables.messages && s.rounds <= a.state.rounds
              && var m := a.state.tables.messages[|s.tables.messages|];
              && m.author == callsign && m.recipient == request.value.recipient
              && m.body == request.value.body && m.createdAt == request.value.createdAt
            else
              a.state == s
  {
    hide CoreInv, SendMessage, C.DecodeFrame, ClockFails, DecodeErrorResponse, Refusal, AllEncodable, IsCallsign;
    hide HandleGetNewMessages, HandleGetNewBulletins, HandleGetBulletin, HandleGetMessage;
    var request := C.DecodeFrame(frame);
    if request.Err? {
      ErrorIsNotStored(frame, request.error, text);
    } else if request.value.SendMessage? {
      SendStores(s, board, callsign, frame, request.value, clock);
    } else {
      OtherNotStored(s, board, callsign, frame, request.value, clock);
    }
  }

  lemma ErrorIsNotStored(frame: Bytes, e: C.DecodeError, text: PlainText)
    ensures DecodeErrorResponse(frame, e, text).Some? ==> DecodeErrorResponse(frame, e, text).value.Error?
  {
  }

  lemma SendStores(s: State, board: Board, callsign: Bytes, frame: Bytes, o: C.Object, clock: int)
    requires CoreInv(s) && C.DecodeFrame(frame) == Ok(o) && o.SendMessage?
    ensures var d := Dispatch(s, board, callsign, o, clock);
            if d.answer == Ok([C.Stored]) then
              && |d.state.tables.messages| == |s.tables.messages| + 1 && |d.state.rounds| == |s.rounds| + 1
              && s.tables.messages <= d.state.tables.messages && s.rounds <= d.state.rounds
              && var m := d.state.tables.messages[|s.tables.messages|];
              && m.author == callsign && m.recipient == o.recipient && m.body == o.body && m.createdAt == o.createdAt
            else
              d.state == s
  {
    hide CoreInv, SendMessage, C.DecodeFrame, ClockFails, Refusal, AllEncodable, IsCallsign, SendAnswer, IsUtf8;
    DecodedRequest(frame, o);
    SendAnswerGood(s, callsign, o, clock);
    SendIsAtomic(s, callsign, o.recipient, o.body, o.createdAt, Unkeyed, clock);
    UnkeyedCreates(s, callsign, o.recipient, o.body, o.createdAt, clock);
    if !IsCallsign(callsign) {
      NoUserIsNotStored(s, callsign);
    }
  }

  lemma NoUserIsNotStored(s: State, callsign: Bytes)
    requires !IsCallsign(callsign)
    ensures SendAnswer(callsign, Sent(s, Err(Invalid))) != Ok([C.Stored])
  {
    hide Refusal;
    RefusalIsError(C.OpSendMessage, C.Unauthorized, BadUser);
  }

  lemma UnkeyedCreates(s: State, author: Bytes, recipient: Bytes, body: Bytes, createdAt: int, clock: int)
    ensures var r := SendMessage(s, author, recipient, body, createdAt, Unkeyed, clock).result;
            r.Ok? ==> r.value.created
  {
    hide Announce, ValidSend, M.Insertable;
  }

  lemma OtherNotStored(s: State, board: Board, callsign: Bytes, frame: Bytes, o: C.Object, clock: int)
    requires CoreInv(s) && C.DecodeFrame(frame) == Ok(o) && !o.SendMessage?
    ensures Dispatch(s, board, callsign, o, clock).state == s
    ensures Dispatch(s, board, callsign, o, clock).answer != Ok([C.Stored])
  {
    hide Refusal, IsCallsign, M.GetNewMessages, AnnounceAll, NewerBulletins, FindBulletin, M.GetConversationMessage;
    hide C.DecodeFrame, CoreInv, HandleGetNewMessages, HandleGetNewBulletins;
    RefusalsAreErrors();
    if o.GetNewMessages? {
      MessagesNotStored(s, callsign, o.since, o.max);
    } else if o.GetNewBulletins? {
      BulletinsNotStored(board, callsign, o.since, o.max);
    }
  }

  lemma MessagesNotStored(s: State, callsign: Bytes, since: int, max: int)
    ensures HandleGetNewMessages(s.tables, callsign, since, max) != Ok([C.Stored])
  {
    hide Refusal, IsCallsign, M.GetNewMessages, AnnounceAll;
    RefusalsAreErrors();
    var r := HandleGetNewMessages(s.tables, callsign, since, max);
    assert r.Ok? ==> |r.value| > 0 && !r.value[|r.value| - 1].Stored?;
  }

  lemma BulletinsNotStored(board: Board, callsign: Bytes, since: int, max: int)
    ensures HandleGetNewBulletins(board, callsign, since, max) != Ok([C.Stored])
  {
    hide Refusal, IsCallsign, NewerBulletins;
    RefusalsAreErrors();
    var r := HandleGetNewBulletins(board, callsign, since, max);
    assert r.Ok? ==> |r.value| > 0 && !r.value[|r.value| - 1].Stored?;
  }

  lemma RefusalsAreErrors()
    ensures forall op, code, w :: Refusal(op, code, w).Error?
  {
  }

  // -------------------------------------------------------------- keyed sends

  // Every step is at most one store transaction.
  lemma StepCommits(board: Board, s: State, e: Event) returns (c: Option<MR.Commit>)
    requires CoreInv(s)
    ensures Step(board, s, e).tables == match c case None => s.tables case Some(commit) => MR.Apply(s.tables, commit)
  {
    hide CoreInv, HandleFrame, SendMessage, MR.Apply;
    match e
    case Send(author, recipient, body, createdAt, keying, clock) =>
      c := SendCommits(s, author, recipient, body, createdAt, keying, clock);
    case Frame(callsign, frame, clock, text) =>
      c := FrameCommits(board, s, callsign, frame, clock, text);
    case Deliver(delivery, status, at) =>
      c := Some(MR.Mark(delivery, status, at));
  }

  lemma SendCommits(s: State, author: Bytes, recipient: Bytes, body: Bytes, createdAt: int, keying: Keying, clock: int)
    returns (c: Option<MR.Commit>)
    ensures SendMessage(s, author, recipient, body, createdAt, keying, clock).state.tables
         == match c case None => s.tables case Some(commit) => MR.Apply(s.tables, commit)
  {
    hide M.StoreMessage, M.StoreKeyed, Announce, ValidSend;
    if ValidSend(author, recipient, body, createdAt) {
      c := Some(if keying.Unkeyed? then MR.Plain(createdAt, author, recipient, body, clock)
                else MR.Once(createdAt, author, recipient, body, keying.key, keying.requestHash, clock));
    } else {
      c := None;
    }
  }

  lemma FrameCommits(board: Board, s: State, callsign: Bytes, frame: Bytes, clock: int, text: PlainText)
    returns (c: Option<MR.Commit>)
    requires CoreInv(s)
    ensures HandleFrame(s, board, callsign, frame, clock, text).state.tables
         == match c case None => s.tables case Some(commit) => MR.Apply(s.tables, commit)
  {
    hide CoreInv, SendMessage, MR.Apply, C.DecodeFrame, EncodeAll, DecodeErrorResponse, SendAnswer, IsCallsign;
    hide HandleGetNewMessages, HandleGetNewBulletins, HandleGetBulletin, HandleGetMessage, Refusal;
    var request := C.DecodeFrame(frame);
    c := None;
    if request.Ok? && request.value.SendMessage? && IsCallsign(callsign) {
      c := SendCommits(s, callsign, request.value.recipient, request.value.body, request.value.createdAt, Unkeyed, clock);
    }
  }

  lemma {:induction false} BoundThroughRun(board: Board, events: seq<Event>, i: nat, n: nat, k: M.SendKey, hash: string, m: M.Row)
    requires i <= n <= |events| && MR.Bound(After(board, events, i).tables, k, hash, m)
    ensures MR.Bound(After(board, events, n).tables, k, hash, m)
    decreases n - i
  {
    hide CoreInv, Step, MR.Bound, MR.Apply;
    if i < n {
      BoundThroughRun(board, events, i, n - 1, k, hash, m);
      RunKeepsCoreInv(board, events, n - 1);
      var c := StepCommits(board, After(board, events, n - 1), events[n - 1]);
      InvOfCore(After(board, events, n - 1));
      if c.Some? {
        MR.BoundStays(After(board, events, n - 1).tables, c.value, k, hash, m);
      }
    }
  }

  lemma InvOfCore(s: State)
    requires CoreInv(s)
    ensures MP.Inv(s.tables)
  {
  }

  lemma AcceptedSendIsBound(s: State, e: Event)
    requires CoreInv(s) && e.Send? && e.keying.Keyed? && SendOf(s, e).result.Ok?
    ensures MR.Bound(SendOf(s, e).state.tables, M.SendKey(e.author, e.keying.key), e.keying.requestHash,
                     SendOf(s, e).result.value.message)
  {
    hide M.StoreKeyed, Announce, ValidSend, MP.Inv, MR.Bound, RowOk;
    var c := MR.Once(e.createdAt, e.author, e.recipient, e.body, e.keying.key, e.keying.requestHash, e.clock);
    MR.AcceptedIsBound(s.tables, c);
  }

  lemma BoundSendAnswers(s: State, e: Event, hash: string, m: M.Row)
    requires CoreInv(s) && e.Send? && e.keying.Keyed? && MR.Bound(s.tables, M.SendKey(e.author, e.keying.key), hash, m)
    ensures SendOf(s, e).state == s
    ensures SendOf(s, e).result
         == if !ValidSend(e.author, e.recipient, e.body, e.createdAt) then Err(Invalid)
            else if e.keying.requestHash == hash then Ok(M.Accepted(s.tables, m, false))
            else Err(Store(M.KeyConflict))
  {
    hide M.StoreKeyed, Announce, ValidSend, MP.Inv, MR.Bound, RowOk;
    var c := MR.Once(e.createdAt, e.author, e.recipient, e.body, e.keying.key, e.keying.requestHash, e.clock);
    MR.BoundAnswers(s.tables, c, hash, m);
  }

  // Over any run, each (author, key) creates at most one message and at most
  // one listener round: after the first accepted send under the key, later
  // ones change nothing, return that first message to the same request, and
  // report a conflict to any other.
  lemma KeyedSendOnce(board: Board, events: seq<Event>, i: nat, j: nat)
    requires i < j < |events| && events[i].Send? && events[j].Send?
    requires events[i].keying.Keyed? && events[j].keying.Keyed? && events[i].keying.key == events[j].keying.key
    requires events[i].author == events[j].author && SendOf(After(board, events, i), events[i]).result.Ok?
    ensures var first := SendOf(After(board, events, i), events[i]).result.value.message;
            var s, e := After(board, events, j), events[j];
            && After(board, events, j + 1) == s
            && SendOf(s, e).result
               == if !ValidSend(e.author, e.recipient, e.body, e.createdAt) then Err(Invalid)
                  else if e.keying.requestHash == events[i].keying.requestHash then Ok(M.Accepted(s.tables, first, false))
                  else Err(Store(M.KeyConflict))
  {
    hide CoreInv, SendOf, MR.Bound, HandleFrame, ValidSend;
    RunKeepsCoreInv(board, events, i);
    RunKeepsCoreInv(board, events, j);
    var k := M.SendKey(events[i].author, events[i].keying.key);
    var first := SendOf(After(board, events, i), events[i]).result.value.message;
    AcceptedSendIsBound(After(board, events, i), events[i]);
    BoundThroughRun(board, events, i + 1, j, k, events[i].keying.requestHash, first);
    BoundSendAnswers(After(board, events, j), events[j], events[i].keying.requestHash, first);
  }
}
