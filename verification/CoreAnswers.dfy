// What the answers that are not messages say: whom an undecodable frame is
// blamed on, and exactly which bulletins a page holds.
module CoreAnswers {
  import opened Prelude
  import opened Text
  import opened Core
  import opened CoreProofs
  import C = Codec
  import M = Mailbox
  import MP = MailboxProofs

  // ------------------------------------------------------- undecodable frames

  // The header names this version and an operation, no flag, and the length
  // that follows it.
  predicate GoodHeader(frame: Bytes) {
    && 4 <= |frame| && frame[0] == 1 && C.OperationOf(frame[1]).Some? && frame[2] == 0 && frame[3] == |frame| - 4
  }

  // Too long to be a frame; a GET_MESSAGE is refused by its length byte instead.
  predicate Oversized(frame: Bytes) {
    |frame| > 259 && !(frame[0] == 1 && frame[1] == 0x06)
  }

  // The operation that is blamed, read off the frame itself.
  predicate Blames(frame: Bytes, operation: Option<C.Operation>)
    requires |frame| >= 4
  {
    match operation
    case Some(op) => frame[0] == 1 && frame[1] == C.OperationCode(op)
    case None => frame[0] != 1 || forall op: C.Operation :: C.OperationCode(op) != frame[1]
  }

  // And the code: a damaged frame, unless its version or its operation is not
  // known or, in an intact one, a field is bad.
  predicate Codes(frame: Bytes, code: C.ErrorCode, e: C.DecodeError)
    requires |frame| >= 4
  {
    if Oversized(frame) then code == C.InvalidFrame
    else if frame[0] != 1 then code == C.UnsupportedVersionCode
    else if C.OperationOf(frame[1]).None? then code == C.UnknownOperationCode
    else if !GoodHeader(frame) then code == C.InvalidFrame
    else (code == C.InvalidFieldCode && e == C.InvalidField) || (code == C.InvalidFrame && e == C.PayloadLength)
  }

  // A payload is refused for its layout or for a field.
  lemma PayloadErrors(op: C.Operation, payload: Bytes)
    requires op != C.OpGetMessage
    ensures var r := C.DecodePayload(op, payload);
            r.Err? ==> r.error == C.PayloadLength || r.error == C.InvalidField
  {
    hide C.TakeText, C.TakeCallsign, C.TakeU32, C.OperationOf, U32Value;
    FieldErrors();
  }

  lemma FieldErrors()
    ensures forall s :: C.TakeU32(s).Err? ==> C.TakeU32(s).error == C.PayloadLength
    ensures forall s :: C.TakeCallsign(s).Err? ==> C.TakeCallsign(s).error == C.PayloadLength || C.TakeCallsign(s).error == C.InvalidField
    ensures forall s, a, b :: C.TakeText(s, a, b).Err? ==>
              C.TakeText(s, a, b).error == C.PayloadLength || C.TakeText(s, a, b).error == C.InvalidField
  {
    hide IsUtf8, IsCallsign;
  }

  lemma BlameIs(frame: Bytes, e: C.DecodeError)
    requires |frame| >= 4 && C.DecodeFrame(frame) == Err(e)
    ensures Blames(frame, BlamedOperation(frame, e)) && Codes(frame, BlamedCode(frame, e), e)
  {
    hide C.DecodePayload, C.OperationOf, IsCallsign, U32Value;
    if C.OperationOf(frame[1]).None? {
      UnknownIs(frame[1]);
    }
    if GoodHeader(frame) && !C.IsGetMessageFrame(frame) {
      GetMessageCode();
      PayloadErrors(C.OperationOf(frame[1]).value, frame[4..]);
    }
  }

  lemma GetMessageCode()
    ensures C.OperationOf(0x06) == Some(C.OpGetMessage)
  {
  }

  lemma UnknownIs(code: byte)
    ensures C.OperationOf(code).None? ==> forall op: C.Operation :: C.OperationCode(op) != code
  {
    hide C.OperationCode;
  }

  // A frame that cannot be decoded changes nothing. Shorter than a header it is
  // ignored; otherwise it is answered by one ERROR that names the operation the
  // frame itself names, if any, and what is wrong with it, and carries the
  // first 64 characters of the decoder's message.
  lemma UndecodableIsBlamed(s: State, board: Board, callsign: Bytes, frame: Bytes, clock: int, text: PlainText, e: C.DecodeError)
    requires C.DecodeFrame(frame) == Err(e)
    ensures var h := HandleFrame(s, board, callsign, frame, clock, text);
            && h.state == s && h.frames.Ok?
            && (|frame| < 4 ==> h.frames == Ok([]))
            && (|frame| >= 4 ==> |h.frames.value| == 1 && C.DecodeFrame(h.frames.value[0]).Ok?
                                 && IsBlame(frame, e, C.DecodeFrame(h.frames.value[0]).value, text))
  {
    hide C.DecodeFrame, EncodeAll, BlamedCode, BlamedOperation, Codes, Blames, Encodable;
    if |frame| >= 4 {
      BlameIs(frame, e);
      DecodeErrorEncodable(frame, e, text);
      var response := DecodeErrorResponse(frame, e, text).value;
      EncodedReadBack([response]);
    } else {
      NoResponse(frame, e, text);
      assert AllEncodable([]);
      EncodedReadBack([]);
    }
  }

  predicate IsBlame(frame: Bytes, e: C.DecodeError, o: C.Object, text: PlainText)
    requires |frame| >= 4
  {
    && o.Error? && Blames(frame, o.failedOperation) && Codes(frame, o.errorCode, e)
    && |o.detail| == (if |text| < 64 then |text| else 64)
    && forall i :: 0 <= i < |o.detail| ==> o.detail[i] == text[i] as int
  }

  // ---------------------------------------------------------------- bulletins

  ghost predicate InSequence(rows: seq<BulletinRow>) {
    forall i, j :: 0 <= i < j < |rows| ==> rows[i].sequence < rows[j].sequence
  }

  lemma NewerStep(rows: seq<BulletinRow>, since: int)
    requires rows != []
    ensures var prefix, last := rows[..|rows| - 1], rows[|rows| - 1];
            NewerBulletins(rows, since) == NewerBulletins(prefix, since) + if last.sequence > since then [last] else []
  {
  }

  lemma {:induction false} NewerAre(rows: seq<BulletinRow>, since: int)
    requires InSequence(rows)
    ensures InSequence(NewerBulletins(rows, since))
    ensures forall b :: b in NewerBulletins(rows, since) <==> b in rows && b.sequence > since
  {
    if rows != [] {
      hide NewerBulletins;
      var prefix, last := rows[..|rows| - 1], rows[|rows| - 1];
      NewerStep(rows, since);
      NewerAre(prefix, since);
      var before := NewerBulletins(prefix, since);
      forall i | 0 <= i < |before|
        ensures before[i].sequence < last.sequence
      {
        assert before[i] in prefix;
      }
    }
  }

  // The page is the bulletins newer than `since` up to `next`, in order; there
  // are more if and only if some lie beyond.
  ghost predicate IsPage(rows: seq<BulletinRow>, since: int, max: int, page: seq<BulletinRow>, next: int, more: bool) {
    && InSequence(page) && |page| <= max
    && (forall b :: b in page <==> b in rows && since < b.sequence <= next)
    && (more <==> exists b :: b in rows && b.sequence > next)
    && (more ==> |page| == max)
  }

  // A prefix of rows in sequence order holds all up to its last one.
  lemma PrefixHolds(newer: seq<BulletinRow>, n: nat, b: BulletinRow)
    requires InSequence(newer) && 0 < n <= |newer| && b in newer
    ensures b in newer[..n] <==> b.sequence <= newer[n - 1].sequence
  {
    var i :| 0 <= i < |newer| && newer[i] == b;
    if i < n {
      assert newer[..n][i] == b;
    }
  }

  lemma TakenPage(rows: seq<BulletinRow>, since: int, max: int)
    requires InSequence(rows) && max >= 1
    ensures var some := M.Take(NewerBulletins(rows, since), max + 1);
            var page := M.Take(some, max);
            IsPage(rows, since, max, page, if page == [] then since else page[|page| - 1].sequence, |some| > max)
  {
    hide NewerBulletins, InSequence;
    NewerAre(rows, since);
    var newer := NewerBulletins(rows, since);
    var n := Min(|newer|, max);
    assert M.Take(M.Take(newer, max + 1), max) == newer[..n];
    PrefixInSequence(newer, n);
    assert newer[..|newer|] == newer;
    if n > 0 {
      forall b | b in newer
        ensures b in newer[..n] <==> b.sequence <= newer[n - 1].sequence
      {
        PrefixHolds(newer, n, b);
      }
      assert newer[n - 1] in newer;
      forall b | b in rows && b.sequence > newer[n - 1].sequence
        ensures b in newer && |newer| > n
      {
        assert b !in newer[..n];
      }
      if |newer| > max {
        NextBeyond(newer, n);
      }
    }
  }

  lemma PrefixInSequence(newer: seq<BulletinRow>, n: nat)
    requires InSequence(newer) && n <= |newer|
    ensures InSequence(newer[..n])
  {
  }

  lemma NextBeyond(newer: seq<BulletinRow>, n: nat)
    requires InSequence(newer) && 0 < n < |newer|
    ensures newer[n] in newer && newer[n].sequence > newer[n - 1].sequence
  {
  }

  // GET_NEW_BULLETINS, by a valid caller: a cursor beyond the last bulletin is
  // refused, and any other is answered by the headers of the next page and an
  // END that carries its cursor.
  lemma BulletinPageIsExact(board: Board, callsign: Bytes, since: int, max: int) returns (page: seq<BulletinRow>, next: int, more: bool)
    requires InSequence(board.rows) && M.IsU32(since) && 1 <= max <= M.MAX_LIMIT && IsCallsign(callsign)
    ensures var r := HandleGetNewBulletins(board, callsign, since, max);
            if since > board.high then r.Ok? && |r.value| == 1 && r.value[0].Error? && r.value[0].errorCode == C.InvalidCursor
            else
              && r == Ok(Headers(page) + [C.End(C.OpGetNewBulletins, |page|, next, more)])
              && IsPage(board.rows, since, max, page, next, more)
              && forall i :: 0 <= i < |page| ==>
                   Headers(page)[i] == C.BulletinHeader(page[i].sequence, page[i].createdAt, page[i].author, page[i].title)
  {
    hide IsCallsign, NewerBulletins, IsPage, InSequence;
    TakenPage(board.rows, since, max);
    var some := M.Take(NewerBulletins(board.rows, since), max + 1);
    page := M.Take(some, max);
    next := if page == [] then since else page[|page| - 1].sequence;
    more := |some| > max;
  }

  // GET_BULLETIN finds the bulletin of that number, whole, if there is one.
  lemma BulletinIsExact(board: Board, callsign: Bytes, sequence: int)
    requires InSequence(board.rows) && M.IsU32(sequence) && sequence > 0 && IsCallsign(callsign)
    ensures var r := HandleGetBulletin(board, callsign, sequence);
            && r.Ok? && |r.value| == 1
            && (forall b :: b in board.rows && b.sequence == sequence ==>
                  r.value[0] == C.Bulletin(sequence, b.createdAt, b.author, b.title, b.body))
            && ((forall b :: b in board.rows ==> b.sequence != sequence) ==>
                  r.value[0].Error? && r.value[0].errorCode == C.NotFound)
  {
    hide IsCallsign, FindBulletin;
    var found := FindBulletin(board.rows, sequence);
    forall b | b in board.rows && b.sequence == sequence
      ensures found == Some(b)
    {
      OneNumber(board.rows, b, found.value);
    }
  }

  lemma OneNumber(rows: seq<BulletinRow>, a: BulletinRow, b: BulletinRow)
    requires InSequence(rows) && a in rows && b in rows && a.sequence == b.sequence
    ensures a == b
  {
  }

  // ----------------------------------------------------------------- refusals

  // One ERROR about that operation.
  ghost predicate Refuses(r: Result<seq<C.Object>, M.StoreError>, op: C.Operation, code: C.ErrorCode) {
    r.Ok? && |r.value| == 1 && r.value[0].Error? && r.value[0].failedOperation == Some(op) && r.value[0].errorCode == code
  }

  lemma RefusalRefuses(op: C.Operation, code: C.ErrorCode, w: Wording)
    ensures Refuses(Ok([Refusal(op, code, w)]), op, code)
  {
    hide Words;
  }

  // A send is refused when its caller is no callsign, or its mailbox is full;
  // otherwise it is STORED, unless the clock is unusable, and then it raises.
  lemma SendIsAnswered(s: State, callsign: Bytes, frame: Bytes, o: C.Object, clock: int)
    requires CoreInv(s) && C.DecodeFrame(frame) == Ok(o) && o.SendMessage?
    ensures var answer := SendAnswer(callsign, SendMessage(s, callsign, o.recipient, o.body, o.createdAt, Unkeyed, clock));
            var full := M.High(s.tables, o.recipient) == MAX_U32;
            && (!IsCallsign(callsign) ==> Refuses(answer, C.OpSendMessage, C.Unauthorized))
            && (IsCallsign(callsign) && full ==> Refuses(answer, C.OpSendMessage, C.Busy))
            && (IsCallsign(callsign) && !full ==> answer == if M.IsClock(clock) then Ok([C.Stored]) else Err(M.BadValue))
  {
    hide IsCallsign, SendMessage, ValidSend, Refusal, CoreInv, C.DecodeFrame;
    DecodedRequest(frame, o);
    if IsCallsign(callsign) {
      SendRequestValid(callsign, o);
      HighBounded(s, o.recipient);
    }
    UnkeyedSendSucceeds(s, callsign, o.recipient, o.body, o.createdAt, clock);
    RefusalRefuses(C.OpSendMessage, C.Unauthorized, BadUser);
    RefusalRefuses(C.OpSendMessage, C.Busy, NoMailboxRoom);
  }

  lemma HighBounded(s: State, recipient: Bytes)
    requires CoreInv(s)
    ensures M.High(s.tables, recipient) <= MAX_U32
  {
    hide MP.Inv, RowOk, Announce;
    MP.HighIsCount(s.tables, recipient);
  }

  // GET_NEW_MESSAGES is refused when its caller is no callsign, or its cursor
  // lies beyond the caller's last message.
  lemma MessagesRefused(s: State, callsign: Bytes, since: int, max: int)
    requires CoreInv(s) && M.IsU32(since) && 1 <= max <= M.MAX_LIMIT
    ensures var r := HandleGetNewMessages(s.tables, callsign, since, max);
            && (!IsCallsign(callsign) ==> Refuses(r, C.OpGetNewMessages, C.Unauthorized))
            && (IsCallsign(callsign) && since > M.High(s.tables, callsign) ==> Refuses(r, C.OpGetNewMessages, C.InvalidCursor))
  {
    hide IsCallsign, Refusal, CoreInv, M.GetNewMessages, AnnounceAll;
    PageFacts(s, callsign, since, max);
    RefusalRefuses(C.OpGetNewMessages, C.Unauthorized, BadUser);
    RefusalRefuses(C.OpGetNewMessages, C.InvalidCursor, BadMessageCursor);
  }

  // Whatever is no request is refused, and changes nothing.
  lemma ResponseIsRefused(s: State, board: Board, callsign: Bytes, o: C.Object, clock: int)
    requires C.OperationCode(C.OperationFor(o)) >= 0x40
    ensures var d := Dispatch(s, board, callsign, o, clock);
            d.state == s && Refuses(d.answer, C.OperationFor(o), C.UnknownOperationCode)
  {
    hide Refusal, HandleGetNewMessages, HandleGetNewBulletins, HandleGetBulletin, HandleGetMessage, SendMessage, IsCallsign;
    RefusalRefuses(C.OperationFor(o), C.UnknownOperationCode, NotARequest);
  }
}
