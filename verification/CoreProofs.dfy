// What every run of the core keeps, and that every answer can be read back.
module CoreProofs {
  import opened Prelude
  import opened Text
  import opened Core
  import C = Codec
  import CP = CodecProofs
  import M = Mailbox
  import MP = MailboxProofs
  import Conv = Conversations

  predicate RowOk(m: M.Row) {
    IsCallsign(m.author) && IsCallsign(m.recipient) && ValidText(m.body, 1, C.MAX_MESSAGE_BODY) && 1 <= m.createdAt <= MAX_U32
  }

  // The store is intact, every stored message can be sent, and message i has
  // had exactly one listener round, the i-th, announcing it.
  ghost predicate CoreInv(s: State) {
    && MP.Inv(s.tables)
    && (forall i :: 0 <= i < |s.tables.messages| ==> RowOk(s.tables.messages[i]))
    && |s.rounds| == |s.tables.messages|
    && (forall i :: 0 <= i < |s.rounds| ==> Announce(s.tables, s.tables.messages[i]) == Ok(s.rounds[i]))
  }

  lemma FreshCoreInv()
    ensures CoreInv(State(M.EMPTY, []))
  {
    MP.EmptyInv();
  }

  // ------------------------------------------------------------------- sends

  lemma ValidSendFields(author: Bytes, recipient: Bytes, body: Bytes, createdAt: int)
    requires ValidSend(author, recipient, body, createdAt)
    ensures IsCallsign(author) && IsCallsign(recipient)
    ensures ValidText(body, 1, C.MAX_MESSAGE_BODY) && 1 <= createdAt <= MAX_U32
  {
    hide IsCallsign, IsUtf8;
  }

  // An accepted send either found its earlier self or added one row at the end.
  lemma StoredShape(t: M.Tables, author: Bytes, recipient: Bytes, body: Bytes, createdAt: int, keying: Keying, clock: int)
    requires MP.Inv(t) && M.IsU32(createdAt)
    ensures var r := Stored(t, author, recipient, body, createdAt, keying, clock);
            && (r.Err? ==> r.error != M.Integrity)
            && (r.Ok? && !r.value.created ==> r.value.tables == t && r.value.message in t.messages)
            && (r.Ok? && r.value.created ==>
                  && MP.Inv(r.value.tables)
                  && r.value.tables.messages == t.messages + [r.value.message]
                  && r.value.message.author == author && r.value.message.recipient == recipient
                  && r.value.message.body == body && r.value.message.createdAt == createdAt)
  {
    hide MP.Inv, M.Insertable, M.GetMessage;
    match keying
    case Unkeyed => MP.StoreKeepsInv(t, createdAt, author, recipient, body, clock);
    case Keyed(key, hash) => MP.StoreKeyedKeepsInv(t, createdAt, author, recipient, body, key, hash, clock);
  }

  lemma AnnounceOk(t: M.Tables, i: nat)
    requires MP.Inv(t) && i < |t.messages|
    ensures var m := t.messages[i];
            var r := Announce(t, m);
            && r.Ok?
            && r.value == C.Message(m.sequence, r.value.conversationSequence, m.createdAt, m.author, m.recipient, m.body)
            && 1 <= r.value.conversationSequence <= MAX_U32 && 1 <= m.sequence <= MAX_U32
  {
    hide MP.Inv, M.ConversationSequence;
    Conv.RankPlaces(t, i);
    Conv.CountTop(t, i);
  }

  lemma AnnounceStable(a: M.Tables, b: M.Tables, i: nat)
    requires MP.Inv(a) && MP.Inv(b) && MP.Extends(a, b) && i < |a.messages|
    ensures i < |b.messages| && b.messages[i] == a.messages[i]
    ensures Announce(b, a.messages[i]) == Announce(a, a.messages[i])
  {
    hide MP.Inv, M.ConversationSequence;
    Conv.RankIsStable(a, b, a.messages[i]);
  }

  lemma AddRoundKeepsInv(s: State, t: M.Tables, m: M.Row)
    requires CoreInv(s) && MP.Inv(t) && t.messages == s.tables.messages + [m] && RowOk(m)
    ensures Announce(t, m).Ok? && CoreInv(State(t, s.rounds + [Announce(t, m).value]))
  {
    hide MP.Inv, RowOk, Announce;
    var n := |s.tables.messages|;
    assert t.messages[n] == m;
    AnnounceOk(t, n);
    forall i | 0 <= i < n
      ensures Announce(t, t.messages[i]) == Ok(s.rounds[i]) && RowOk(t.messages[i])
    {
      AnnounceStable(s.tables, t, i);
    }
  }

  // One send: refused or failed, nothing changed; repeated, nothing changed;
  // created, exactly one message and exactly one listener round more.
  lemma SendIsAtomic(s: State, author: Bytes, recipient: Bytes, body: Bytes, createdAt: int, keying: Keying, clock: int)
    requires CoreInv(s)
    ensures var sent := SendMessage(s, author, recipient, body, createdAt, keying, clock);
            && CoreInv(sent.state)
            && (sent.result.Err? ==> sent.state == s && sent.result.error != Store(M.Integrity))
            && (sent.result.Ok? && !sent.result.value.created ==> sent.state == s)
            && (sent.result.Ok? && sent.result.value.created ==>
                  && sent.state.tables.messages == s.tables.messages + [sent.result.value.message]
                  && |sent.state.rounds| == |s.rounds| + 1 && sent.state.rounds[..|s.rounds|] == s.rounds
                  && sent.result.value.message.author == author && sent.result.value.message.recipient == recipient
                  && sent.result.value.message.body == body && sent.result.value.message.createdAt == createdAt)
  {
    hide MP.Inv, Announce, Stored;
    if ValidSend(author, recipient, body, createdAt) {
      ValidSendFields(author, recipient, body, createdAt);
      StoredShape(s.tables, author, recipient, body, createdAt, keying, clock);
      var r := Stored(s.tables, author, recipient, body, createdAt, keying, clock);
      if r.Ok? && r.value.created {
        AddRoundKeepsInv(s, r.value.tables, r.value.message);
      }
    }
  }

  // An unkeyed send succeeds exactly when it is well formed, the mailbox has
  // room and the clock is usable.
  lemma UnkeyedSendSucceeds(s: State, author: Bytes, recipient: Bytes, body: Bytes, createdAt: int, clock: int)
    requires CoreInv(s)
    ensures var r := SendMessage(s, author, recipient, body, createdAt, Unkeyed, clock).result;
            var valid := ValidSend(author, recipient, body, createdAt);
            var room := M.High(s.tables, recipient) < MAX_U32;
            && (r.Ok? <==> valid && room && M.IsClock(clock))
            && (r.Err? ==> r.error == (if !valid then Invalid else if !room then Store(M.Exhausted) else Store(M.BadValue)))
  {
    hide MP.Inv, Announce, IsCallsign;
    SendIsAtomic(s, author, recipient, body, createdAt, Unkeyed, clock);
    if ValidSend(author, recipient, body, createdAt) {
      ValidSendFields(author, recipient, body, createdAt);
      StoreOutcome(s.tables, createdAt, author, recipient, body, clock);
    }
  }

  lemma StoreOutcome(t: M.Tables, createdAt: int, author: Bytes, recipient: Bytes, body: Bytes, clock: int)
    requires MP.Inv(t) && M.IsU32(createdAt)
    ensures var r := M.StoreMessage(t, createdAt, author, recipient, body, clock);
            && (r.Ok? <==> M.High(t, recipient) < MAX_U32 && M.IsClock(clock))
            && (r.Err? ==> r.error == if M.High(t, recipient) == MAX_U32 then M.Exhausted else M.BadValue)
  {
    hide M.Insertable;
    MP.StoreKeepsInv(t, createdAt, author, recipient, body, clock);
    MP.HighIsCount(t, recipient);
  }

  // ---------------------------------------------------------------- encoding

  predicate Encodable(o: C.Object) {
    C.EncodePayload(o).Ok?
  }

  ghost predicate AllEncodable(objects: seq<C.Object>) {
    forall i :: 0 <= i < |objects| ==> Encodable(objects[i])
  }

  // Frames that decode to exactly these objects.
  ghost predicate ReadBack(frames: seq<Bytes>, objects: seq<C.Object>) {
    |frames| == |objects| && forall i :: 0 <= i < |frames| ==> C.DecodeFrame(frames[i]) == Ok(objects[i])
  }

  lemma {:induction false} EncodedReadBack(objects: seq<C.Object>)
    requires AllEncodable(objects)
    ensures EncodeAll(objects).Ok? && ReadBack(EncodeAll(objects).value, objects)
  {
    hide Encodable, C.EncodeFrame, C.DecodeFrame;
    if objects == [] {
    } else {
      var prefix, last := objects[..|objects| - 1], objects[|objects| - 1];
      EncodedReadBack(prefix);
      OneReadBack(last);
    }
  }

  // Whatever the encoder lets through reads back as it was.
  lemma {:induction false} EncodedReads(objects: seq<C.Object>)
    requires EncodeAll(objects).Ok?
    ensures ReadBack(EncodeAll(objects).value, objects)
  {
    hide C.EncodeFrame, C.DecodeFrame;
    if objects == [] {
    } else {
      EncodedReads(objects[..|objects| - 1]);
      var last := objects[|objects| - 1];
      CP.FrameParses(last, false, C.EncodeFrame(last, false).value);
    }
  }

  lemma {:induction false} EncodedExactly(objects: seq<C.Object>)
    ensures EncodeAll(objects).Ok? <==> AllEncodable(objects)
  {
    hide Encodable, C.EncodeFrame;
    if objects == [] {
    } else {
      var prefix, last := objects[..|objects| - 1], objects[|objects| - 1];
      EncodedExactly(prefix);
      OneEncoded(last);
      if AllEncodable(objects) {
        assert Encodable(objects[|objects| - 1]);
      } else if Encodable(last) {
        var i :| 0 <= i < |objects| && !Encodable(objects[i]);
        assert objects[i] == prefix[i];
      }
    }
  }

  lemma OneEncoded(o: C.Object)
    ensures C.EncodeFrame(o, false).Ok? <==> Encodable(o)
  {
    hide C.EncodePayload;
    CP.SizeCheckNeverFires(o, false);
  }

  lemma OneReadBack(o: C.Object)
    requires Encodable(o)
    ensures C.EncodeFrame(o, false).Ok? && C.DecodeFrame(C.EncodeFrame(o, false).value) == Ok(o)
  {
    hide C.EncodeFrame, C.DecodeFrame, C.EncodePayload;
    CP.SizeCheckNeverFires(o, false);
    CP.FrameParses(o, false, C.EncodeFrame(o, false).value);
  }

  lemma AsciiIsText(s: PlainText, maximum: nat)
    requires |s| <= maximum
    ensures ValidText(Ascii(s), 0, maximum)
  {
    PrintableIsUtf8(Ascii(s));
  }

  lemma RefusalEncodable(op: C.Operation, code: C.ErrorCode, w: Wording)
    ensures Encodable(Refusal(op, code, w))
  {
    hide Words, IsUtf8;
    WordsFit(w);
    AsciiIsText(Words(w), C.MAX_DETAIL);
  }

  lemma DecodeErrorEncodable(frame: Bytes, e: C.DecodeError, text: PlainText)
    requires |frame| >= C.HEADER_SIZE
    ensures DecodeErrorResponse(frame, e, text).Some? && Encodable(DecodeErrorResponse(frame, e, text).value)
  {
    hide IsUtf8, BlamedCode, BlamedOperation;
    AsciiIsText(M.Take(text, C.MAX_DETAIL), C.MAX_DETAIL);
  }

  lemma CallsignPrints(s: Bytes)
    requires IsCallsign(s)
    ensures C.PrintCallsign(s).Ok?
  {
    hide IsUtf8;
    CallsignIsText(s);
  }

  lemma RowEncodable(m: M.Row, number: int)
    requires RowOk(m) && 1 <= number <= MAX_U32 && 1 <= m.sequence <= MAX_U32
    ensures Encodable(C.Message(m.sequence, number, m.createdAt, m.author, m.recipient, m.body))
  {
    hide IsUtf8, IsCallsign;
    CallsignPrints(m.author);
    CallsignPrints(m.recipient);
  }

  lemma {:induction false} AnnouncedEncodable(s: State, rows: seq<M.Row>)
    requires CoreInv(s) && forall m :: m in rows ==> m in s.tables.messages
    ensures var r := AnnounceAll(s.tables, rows);
            && r.Ok? && |r.value| == |rows| && AllEncodable(r.value)
            && forall i :: 0 <= i < |rows| ==> Announce(s.tables, rows[i]) == Ok(r.value[i])
  {
    hide CoreInv, Announce, Encodable;
    if rows == [] {
    } else {
      var prefix, last := rows[..|rows| - 1], rows[|rows| - 1];
      AnnouncedEncodable(s, prefix);
      assert last in rows;
      OneAnnounced(s, last);
    }
  }

  lemma OneAnnounced(s: State, m: M.Row)
    requires CoreInv(s) && m in s.tables.messages
    ensures Announce(s.tables, m).Ok? && Encodable(Announce(s.tables, m).value)
  {
    hide MP.Inv, Announce, Encodable, RowOk;
    var i :| 0 <= i < |s.tables.messages| && s.tables.messages[i] == m;
    AnnounceOk(s.tables, i);
    RowEncodable(m, Announce(s.tables, m).value.conversationSequence);
  }

  // ---------------------------------------------------------------- handlers

  // GET_NEW_MESSAGES answers with the page's messages and an END carrying the
  // page's own cursor, or with one ERROR; never with an exception.
  lemma GetNewMessagesAnswer(s: State, callsign: Bytes, since: int, max: int)
    requires CoreInv(s) && M.IsU32(since) && 1 <= max <= M.MAX_LIMIT
    ensures var r := HandleGetNewMessages(s.tables, callsign, since, max);
            && r.Ok? && AllEncodable(r.value)
            && (IsCallsign(callsign) && since <= M.High(s.tables, callsign) ==>
                  var page := M.GetNewMessages(s.tables, callsign, since, max);
                  && page.Ok?
                  && |r.value| == |page.value.messages| + 1
                  && (forall i :: 0 <= i < |page.value.messages| ==>
                        Announce(s.tables, page.value.messages[i]) == Ok(r.value[i]))
                  && r.value[|page.value.messages|]
                     == C.End(C.OpGetNewMessages, |page.value.messages|, page.value.nextSince, page.value.hasMore))
  {
    hide M.GetNewMessages, CoreInv, Announce, Refusal, Encodable, IsCallsign, AnnounceAll;
    RefusalEncodable(C.OpGetNewMessages, C.Unauthorized, BadUser);
    RefusalEncodable(C.OpGetNewMessages, C.InvalidCursor, BadMessageCursor);
    PageFacts(s, callsign, since, max);
    var r := M.GetNewMessages(s.tables, callsign, since, max);
    if r.Ok? {
      AnnouncedEncodable(s, r.value.messages);
      EndEncodable(C.OpGetNewMessages, |r.value.messages|, r.value.nextSince, r.value.hasMore);
    }
  }

  lemma PageFacts(s: State, callsign: Bytes, since: int, max: int)
    requires CoreInv(s) && M.IsU32(since) && 1 <= max <= M.MAX_LIMIT
    ensures var r := M.GetNewMessages(s.tables, callsign, since, max);
            && (r.Ok? <==> since <= M.High(s.tables, callsign))
            && (r.Err? ==> r.error == M.CursorAhead)
            && (r.Ok? ==> |r.value.messages| <= max && M.IsU32(r.value.nextSince)
                          && forall m :: m in r.value.messages ==> m in s.tables.messages)
  {
    hide M.GetNewMessages, MP.Inv, RowOk, Announce;
    MP.CursorAheadRefused(s.tables, callsign, since, max);
    if since <= M.High(s.tables, callsign) {
      MP.PageIsInterval(s.tables, callsign, since, max);
      MP.HighIsCount(s.tables, callsign);
      var next := Min(since + max, M.High(s.tables, callsign));
      MP.IntervalShape(s.tables, callsign, since, next, |s.tables.messages|);
      IntervalRows(s.tables.messages, callsign, since, next, |s.tables.messages|);
    }
  }

  lemma {:induction false} IntervalRows(rows: seq<M.Row>, r: Bytes, low: int, high: int, n: nat)
    requires n <= |rows|
    ensures forall m :: m in MP.Interval(rows, r, low, high, n) ==> m in rows
  {
    if n == 0 {
    } else {
      IntervalRows(rows, r, low, high, n - 1);
    }
  }

  lemma EndEncodable(op: C.Operation, count: nat, next: int, more: bool)
    requires (op == C.OpGetNewMessages || op == C.OpGetNewBulletins) && count <= 255 && M.IsU32(next)
    ensures Encodable(C.End(op, count, next, more))
  {
  }

  // The bulletin rows that a header, and a whole bulletin, can carry.
  predicate HeaderOk(b: BulletinRow) {
    && 1 <= b.sequence <= MAX_U32 && 1 <= b.createdAt <= MAX_U32 && IsCallsign(b.author)
    && ValidText(b.title, 1, C.MAX_TITLE)
  }

  predicate BulletinOk(b: BulletinRow) {
    HeaderOk(b) && ValidText(b.body, 1, C.MAX_BULLETIN_BODY)
  }

  // The request asks for a bulletin row that cannot be sent.
  ghost predicate BoardFails(board: Board, callsign: Bytes, o: C.Object) {
    match o
    case GetNewBulletins(since, max) =>
      && IsCallsign(callsign) && since <= board.high && max >= 0
      && exists b :: b in M.Take(NewerBulletins(board.rows, since), max) && !HeaderOk(b)
    case GetBulletin(sequence) =>
      && IsCallsign(callsign)
      && FindBulletin(board.rows, sequence).Some? && !BulletinOk(FindBulletin(board.rows, sequence).value)
    case _ => false
  }

  lemma HeaderEncodable(b: BulletinRow)
    ensures Encodable(HeaderOf(b)) <==> HeaderOk(b)
  {
    hide IsUtf8, IsCallsign;
    CallsignExact(b.author);
  }

  lemma BulletinEncodable(b: BulletinRow)
    ensures Encodable(C.Bulletin(b.sequence, b.createdAt, b.author, b.title, b.body)) <==> BulletinOk(b)
  {
    hide IsUtf8, IsCallsign;
    CallsignExact(b.author);
  }

  lemma CallsignExact(s: Bytes)
    ensures C.PrintCallsign(s).Ok? <==> IsCallsign(s)
  {
    hide IsUtf8;
    if IsCallsign(s) {
      CallsignIsText(s);
    }
  }

  // Each bulletin request is answered, by frames that can all be sent unless a
  // row it asks for cannot.
  lemma GetNewBulletinsAnswer(board: Board, callsign: Bytes, since: int, max: int)
    requires M.IsU32(since) && 1 <= max <= M.MAX_LIMIT
    ensures var r := HandleGetNewBulletins(board, callsign, since, max);
            r.Ok? && (AllEncodable(r.value) <==> !BoardFails(board, callsign, C.GetNewBulletins(since, max)))
  {
    hide Refusal, Encodable, IsCallsign, NewerBulletins, HeaderOk, HeaderOf;
    RefusalEncodable(C.OpGetNewBulletins, C.Unauthorized, BadUser);
    RefusalEncodable(C.OpGetNewBulletins, C.InvalidCursor, BadBulletinCursor);
    var rows := M.Take(NewerBulletins(board.rows, since), max + 1);
    var page := M.Take(rows, max);
    assert page == M.Take(NewerBulletins(board.rows, since), max);
    PageEncodable(page, C.OpGetNewBulletins, since, |rows| > max);
  }

  lemma HeaderSequence(b: BulletinRow)
    ensures HeaderOk(b) ==> 1 <= b.sequence <= MAX_U32
  {
    hide IsUtf8, IsCallsign;
  }

  // A page of headers and the END behind it.
  lemma PageEncodable(page: seq<BulletinRow>, op: C.Operation, since: int, more: bool)
    requires op == C.OpGetNewBulletins && |page| <= 255 && M.IsU32(since)
    ensures var next := if page == [] then since else page[|page| - 1].sequence;
            AllEncodable(Headers(page) + [C.End(op, |page|, next, more)]) <==> forall b :: b in page ==> HeaderOk(b)
  {
    hide Encodable, HeaderOk, HeaderOf;
    var next := if page == [] then since else page[|page| - 1].sequence;
    var all := Headers(page) + [C.End(op, |page|, next, more)];
    forall i | 0 <= i < |page|
      ensures Encodable(all[i]) <==> HeaderOk(page[i])
    {
      assert all[i] == HeaderOf(page[i]);
      HeaderEncodable(page[i]);
    }
    if b :| b in page && !HeaderOk(b) {
      var i :| 0 <= i < |page| && page[i] == b;
      assert !Encodable(all[i]);
    } else {
      if page != [] {
        HeaderSequence(page[|page| - 1]);
      }
      EndEncodable(op, |page|, next, more);
    }
  }

  lemma GetBulletinAnswer(board: Board, callsign: Bytes, sequence: int)
    requires M.IsU32(sequence) && sequence > 0
    ensures var r := HandleGetBulletin(board, callsign, sequence);
            r.Ok? && (AllEncodable(r.value) <==> !BoardFails(board, callsign, C.GetBulletin(sequence)))
  {
    hide Refusal, Encodable, IsCallsign, BulletinOk, FindBulletin;
    RefusalEncodable(C.OpGetBulletin, C.Unauthorized, BadUser);
    RefusalEncodable(C.OpGetBulletin, C.NotFound, NoBulletin);
    var b := FindBulletin(board.rows, sequence);
    if b.Some? {
      BulletinEncodable(b.value);
      if IsCallsign(callsign) {
        var r := HandleGetBulletin(board, callsign, sequence).value;
        assert r[0] == C.Bulletin(b.value.sequence, b.value.createdAt, b.value.author, b.value.title, b.value.body);
      }
    }
  }

  // The message numbered `number` among those from peer to callsign.
  predicate Numbered(t: M.Tables, callsign: Bytes, peer: Bytes, number: int, m: M.Row) {
    m in t.messages && m.recipient == callsign && m.author == peer && M.ConversationSequence(t, m) == Ok(number)
  }

  // GET_MESSAGE answers with the numbered message of the conversation, and
  // with NOT_FOUND, for valid callsigns, exactly when there is none.
  lemma GetMessageAnswer(s: State, callsign: Bytes, peer: Bytes, number: int)
    requires CoreInv(s) && 1 <= number <= MAX_U32
    ensures var r := HandleGetMessage(s.tables, callsign, peer, number);
            && AllEncodable(r)
            && (forall m :: Numbered(s.tables, callsign, peer, number, m) ==>
                  Announce(s.tables, m).Ok? && r == [Announce(s.tables, m).value])
            && (r == [Refusal(C.OpGetMessage, C.NotFound, NoMessage)] <==>
                  IsCallsign(callsign) && IsCallsign(peer) && !exists m :: Numbered(s.tables, callsign, peer, number, m))
  {
    hide Refusal, Encodable, IsCallsign, CoreInv, M.GetConversationMessage, M.ConversationSequence, Announce;
    RefusalEncodable(C.OpGetMessage, C.Unauthorized, BadCallsign);
    RefusalEncodable(C.OpGetMessage, C.InternalError, DamagedMailbox);
    RefusalEncodable(C.OpGetMessage, C.NotFound, NoMessage);
    RefusalsDiffer();
    NumberedFacts(s, callsign, peer, number);
    forall m | Numbered(s.tables, callsign, peer, number, m)
      ensures Announce(s.tables, m).Ok? && HandleGetMessage(s.tables, callsign, peer, number) == [Announce(s.tables, m).value]
      ensures M.GetConversationMessage(s.tables, callsign, peer, number) == Ok(Some(m))
    {
      NumberedMessage(s, m, number);
    }
    var found := M.GetConversationMessage(s.tables, callsign, peer, number);
    if found.value.Some? {
      assert Numbered(s.tables, callsign, peer, number, found.value.value);
    }
  }

  lemma RefusalsDiffer()
    ensures Refusal(C.OpGetMessage, C.NotFound, NoMessage).Error?
    ensures Refusal(C.OpGetMessage, C.NotFound, NoMessage).errorCode == C.NotFound
    ensures Refusal(C.OpGetMessage, C.Unauthorized, BadCallsign) != Refusal(C.OpGetMessage, C.NotFound, NoMessage)
  {
  }

  lemma NumberedFacts(s: State, callsign: Bytes, peer: Bytes, number: int)
    requires CoreInv(s) && 1 <= number <= MAX_U32
    ensures var r := M.GetConversationMessage(s.tables, callsign, peer, number);
            && r.Ok?
            && (r.value.Some? ==>
                  var m := r.value.value;
                  && Numbered(s.tables, callsign, peer, number, m)
                  && Encodable(C.Message(m.sequence, number, m.createdAt, m.author, m.recipient, m.body)))
  {
    hide Encodable, IsCallsign, RowOk, Announce, MP.Inv, M.GetConversationMessage, M.ConversationSequence;
    Conv.RankOfSelect(s.tables, callsign, peer, number);
    var r := M.GetConversationMessage(s.tables, callsign, peer, number);
    if r.value.Some? {
      var i :| 0 <= i < |s.tables.messages| && s.tables.messages[i] == r.value.value;
      Conv.CountTop(s.tables, i);
      Conv.RankPlaces(s.tables, i);
      RowEncodable(r.value.value, number);
    }
  }

  lemma NumberedMessage(s: State, m: M.Row, number: int)
    requires CoreInv(s) && m in s.tables.messages && M.ConversationSequence(s.tables, m) == Ok(number)
    ensures Announce(s.tables, m) == Ok(C.Message(m.sequence, number, m.createdAt, m.author, m.recipient, m.body))
    ensures M.GetConversationMessage(s.tables, m.recipient, m.author, number) == Ok(Some(m))
    ensures IsCallsign(m.author) && IsCallsign(m.recipient)
  {
    hide IsCallsign, MP.Inv, M.GetConversationMessage, M.ConversationSequence;
    Conv.SelectOfRank(s.tables, m);
  }

  // ---------------------------------------------------------------- requests

  // What decoding guarantees about a request's fields.
  lemma DecodedRequest(frame: Bytes, o: C.Object)
    requires C.DecodeFrame(frame) == Ok(o)
    ensures o.SendMessage? ==> IsCallsign(o.recipient) && ValidText(o.body, 1, C.MAX_MESSAGE_BODY) && 1 <= o.createdAt <= MAX_U32
    ensures o.GetNewMessages? || o.GetNewBulletins? ==> M.IsU32(o.since) && 1 <= o.max <= M.MAX_LIMIT
    ensures o.GetBulletin? ==> 1 <= o.sequence <= MAX_U32
    ensures o.GetMessage? ==> IsCallsign(o.peer) && 1 <= o.conversationSequence <= MAX_U32
  {
    hide IsCallsign, IsUtf8, C.DecodeFrame, C.DecodeFrameWithFlags, C.EncodeFrame, C.EncodePayload;
    CP.DecodersAgree(frame);
    CP.FramePrints(frame, C.DecodeFrameWithFlags(frame).value);
    CP.SizeCheckNeverFires(o, false);
    if !CP.VersionZero(o) {
      EncodableFields(o);
    }
  }

  lemma EncodableFields(o: C.Object)
    requires Encodable(o)
    ensures o.SendMessage? ==> IsCallsign(o.recipient) && ValidText(o.body, 1, C.MAX_MESSAGE_BODY) && 1 <= o.createdAt <= MAX_U32
    ensures o.GetNewMessages? || o.GetNewBulletins? ==> M.IsU32(o.since) && 1 <= o.max <= M.MAX_LIMIT
    ensures o.GetBulletin? ==> 1 <= o.sequence <= MAX_U32
    ensures o.GetMessage? ==> IsCallsign(o.peer) && 1 <= o.conversationSequence <= MAX_U32
  {
    hide IsCallsign, IsUtf8;
  }

  lemma SendRequestValid(callsign: Bytes, o: C.Object)
    requires o.SendMessage? && IsCallsign(callsign)
    requires IsCallsign(o.recipient) && ValidText(o.body, 1, C.MAX_MESSAGE_BODY) && 1 <= o.createdAt <= MAX_U32
    ensures ValidSend(callsign, o.recipient, o.body, o.createdAt)
  {
    hide IsCallsign, IsUtf8, C.EncodeFrame;
    CallsignPrints(o.recipient);
    CP.SizeCheckNeverFires(o, false);
  }

  ghost predicate GoodAnswer(answer: Result<seq<C.Object>, M.StoreError>) {
    answer.Ok? && AllEncodable(answer.value)
  }

  // The only request that can end in an exception: a well-formed send to a
  // mailbox with room while the clock reads outside its range.
  predicate ClockFails(s: State, callsign: Bytes, o: C.Object, clock: int) {
    o.SendMessage? && IsCallsign(callsign) && M.High(s.tables, o.recipient) < MAX_U32 && !M.IsClock(clock)
  }

  lemma SendAnswerGood(s: State, callsign: Bytes, o: C.Object, clock: int)
    requires CoreInv(s) && o.SendMessage?
    requires IsCallsign(o.recipient) && ValidText(o.body, 1, C.MAX_MESSAGE_BODY) && 1 <= o.createdAt <= MAX_U32
    ensures var sent := SendMessage(s, callsign, o.recipient, o.body, o.createdAt, Unkeyed, clock);
            var answer := SendAnswer(callsign, sent);
            && (answer == Err(M.BadValue) <==> ClockFails(s, callsign, o, clock))
            && (!ClockFails(s, callsign, o, clock) ==> GoodAnswer(answer))
            && (answer == Ok([C.Stored]) <==> IsCallsign(callsign) && sent.result.Ok?)
  {
    hide IsCallsign, SendMessage, ValidSend, Refusal, CoreInv, Encodable, IsUtf8;
    if IsCallsign(callsign) {
      SendRequestValid(callsign, o);
    }
    StoredEncodable();
    RefusalEncodable(C.OpSendMessage, C.Unauthorized, BadUser);
    RefusalEncodable(C.OpSendMessage, C.Busy, NoMailboxRoom);
    UnkeyedSendSucceeds(s, callsign, o.recipient, o.body, o.createdAt, clock);
    RefusalIsError(C.OpSendMessage, C.Unauthorized, BadUser);
    RefusalIsError(C.OpSendMessage, C.Busy, NoMailboxRoom);
    RefusalIsError(C.OpSendMessage, C.InternalError, DamagedMailbox);
  }

  lemma RefusalIsError(op: C.Operation, code: C.ErrorCode, w: Wording)
    ensures Refusal(op, code, w).Error?
  {
  }

  lemma StoredEncodable()
    ensures Encodable(C.Stored)
  {
  }

  lemma DispatchGood(s: State, board: Board, callsign: Bytes, frame: Bytes, o: C.Object, clock: int)
    requires CoreInv(s) && C.DecodeFrame(frame) == Ok(o)
    ensures var d := Dispatch(s, board, callsign, o, clock);
            && CoreInv(d.state)
            && (o.SendMessage? || d.state == s)
            && (d.answer.Err? <==> ClockFails(s, callsign, o, clock))
            && (d.answer.Ok? ==> (AllEncodable(d.answer.value) <==> !BoardFails(board, callsign, o)))
  {
    hide IsCallsign, SendMessage, ValidSend, Refusal, CoreInv, Encodable, IsUtf8, SendAnswer, C.DecodeFrame;
    hide HandleGetNewMessages, HandleGetNewBulletins, HandleGetBulletin, HandleGetMessage;
    DecodedRequest(frame, o);
    match o
    case SendMessage(createdAt, recipient, body) =>
      SendAnswerGood(s, callsign, o, clock);
      SendIsAtomic(s, callsign, recipient, body, createdAt, Unkeyed, clock);
      if !IsCallsign(callsign) {
        NoUserAnswer(s, callsign);
      }
    case GetNewMessages(since, max) => GetNewMessagesAnswer(s, callsign, since, max);
    case GetNewBulletins(since, max) => GetNewBulletinsAnswer(board, callsign, since, max);
    case GetBulletin(sequence) => GetBulletinAnswer(board, callsign, sequence);
    case GetMessage(peer, number) => GetMessageAnswer(s, callsign, peer, number);
    case GetCapabilities => CapabilitiesEncodable();
    case _ => RefusalEncodable(C.OperationFor(o), C.UnknownOperationCode, NotARequest);
  }

  lemma NoUserAnswer(s: State, callsign: Bytes)
    requires !IsCallsign(callsign)
    ensures GoodAnswer(SendAnswer(callsign, Sent(s, Err(Invalid))))
  {
    hide Encodable, Refusal;
    RefusalEncodable(C.OpSendMessage, C.Unauthorized, BadUser);
  }

  lemma CapabilitiesEncodable()
    ensures Encodable(C.Capabilities(C.PROTOCOL_VERSION, CAPABILITIES))
  {
  }

  // ----------------------------------------------------------------- closure

  // For every byte string and every callsign: every frame returned decodes to
  // the response it stands for, and the invariant is kept. An exception escapes
  // exactly when a send meets an unusable clock, or a bulletin row asked for
  // cannot be sent.
  lemma HandlingIsClosed(s: State, board: Board, callsign: Bytes, frame: Bytes, clock: int, text: PlainText)
    requires CoreInv(s)
    ensures var h := HandleFrame(s, board, callsign, frame, clock, text);
            var request := C.DecodeFrame(frame);
            && CoreInv(h.state)
            && (h.frames.Ok? ==> ReadBack(h.frames.value, Answered(s, board, callsign, frame, clock, text).answer.value))
            && (h.frames.Err? <==>
                  request.Ok? && (ClockFails(s, callsign, request.value, clock) || BoardFails(board, callsign, request.value)))
  {
    hide CoreInv, Encodable, BoardFails, C.DecodeFrame, Dispatch, ReadBack, ClockFails, DecodeErrorResponse, EncodeAll;
    var request := C.DecodeFrame(frame);
    if request.Ok? {
      DispatchGood(s, board, callsign, frame, request.value, clock);
    } else if |frame| >= C.HEADER_SIZE {
      DecodeErrorEncodable(frame, request.error, text);
    } else {
      NoResponse(frame, request.error, text);
    }
    var answer := Answered(s, board, callsign, frame, clock, text).answer;
    if answer.Ok? {
      EncodedExactly(answer.value);
      if EncodeAll(answer.value).Ok? {
        EncodedReads(answer.value);
      }
    }
  }

  lemma NoResponse(frame: Bytes, e: C.DecodeError, text: PlainText)
    requires |frame| < C.HEADER_SIZE
    ensures DecodeErrorResponse(frame, e, text) == None
  {
  }
}
