// Printer and parser undo each other, field by field and then frame by frame.
module CodecProofs {
  import opened Prelude
  import opened Text
  import opened Codec

  // ------------------------------------------------------------------ fields

  lemma U32FieldParses(v: nat, rest: Bytes)
    requires v <= MAX_U32
    ensures TakeU32(U32Bytes(v) + rest) == Ok(Parsed(v, rest))
  {
    var s := U32Bytes(v) + rest;
    U32RoundTrip(v);
    assert s[..4] == U32Bytes(v) && s[4..] == rest;
  }

  lemma PrefixedParses(s: Bytes, rest: Bytes)
    requires |s| <= 255
    ensures TakePrefixed([|s| as byte] + s + rest) == Ok(Parsed(s, rest))
  {
    var full := [|s| as byte] + s + rest;
    assert full[1..] == s + rest;
    assert full[1..][..|s|] == s && full[1..][|s|..] == rest;
  }

  lemma TextFieldParses(s: Bytes, minimum: nat, maximum: nat, rest: Bytes)
    requires maximum <= 255 && PrintText(s, minimum, maximum).Ok?
    ensures TakeText(PrintText(s, minimum, maximum).value + rest, minimum, maximum) == Ok(Parsed(s, rest))
  {
    PrefixedParses(s, rest);
  }

  lemma CallsignFieldParses(s: Bytes, rest: Bytes)
    requires PrintCallsign(s).Ok?
    ensures TakeCallsign(PrintCallsign(s).value + rest) == Ok(Parsed(s, rest))
  {
    PrefixedParses(s, rest);
  }

  lemma U32FieldPrints(s: Bytes)
    requires TakeU32(s).Ok?
    ensures TakeU32(s).value.value <= MAX_U32
    ensures s == U32Bytes(TakeU32(s).value.value) + TakeU32(s).value.rest
  {
    U32Canonical(s[..4]);
  }

  lemma PrefixedPrints(s: Bytes)
    requires TakePrefixed(s).Ok?
    ensures var p := TakePrefixed(s).value;
            |p.value| <= 255 && s == [|p.value| as byte] + p.value + p.rest
  {
  }

  lemma TextFieldPrints(s: Bytes, minimum: nat, maximum: nat)
    requires maximum <= 255 && TakeText(s, minimum, maximum).Ok?
    ensures var p := TakeText(s, minimum, maximum).value;
            && PrintText(p.value, minimum, maximum).Ok?
            && s == PrintText(p.value, minimum, maximum).value + p.rest
  {
    PrefixedPrints(s);
  }

  lemma CallsignFieldPrints(s: Bytes)
    requires TakeCallsign(s).Ok?
    ensures var p := TakeCallsign(s).value;
            PrintCallsign(p.value).Ok? && s == PrintCallsign(p.value).value + p.rest
  {
    PrefixedPrints(s);
    CallsignIsText(TakeCallsign(s).value.value);
  }

  // ---------------------------------------------- decode undoes encode

  lemma SendMessageParses(o: Object, p: Bytes)
    requires o.SendMessage? && PrintSendMessage(o.createdAt, o.recipient, o.body) == Ok(p)
    ensures DecodeSendMessage(p) == Ok(o) && |p| <= 251
  {
    var r := PrintCallsign(o.recipient).value;
    var b := PrintText(o.body, 1, MAX_MESSAGE_BODY).value;
    assert b + [] == b;
    U32FieldParses(o.createdAt, r + b);
    CallsignFieldParses(o.recipient, b);
    TextFieldParses(o.body, 1, MAX_MESSAGE_BODY, []);
  }

  // The fields of a MESSAGE payload, given where each one ends.
  lemma MessageFromFields(o: Object, p: Bytes, p1: Bytes, p2: Bytes, p3: Bytes, p4: Bytes, p5: Bytes)
    requires o.Message? && o.sequence > 0 && o.conversationSequence > 0 && o.createdAt > 0
    requires TakeU32(p) == Ok(Parsed(o.sequence, p1))
    requires TakeU32(p1) == Ok(Parsed(o.conversationSequence, p2))
    requires TakeU32(p2) == Ok(Parsed(o.createdAt, p3))
    requires TakeCallsign(p3) == Ok(Parsed(o.author, p4))
    requires TakeCallsign(p4) == Ok(Parsed(o.recipient, p5))
    requires TakeText(p5, 1, MAX_MESSAGE_BODY) == Ok(Parsed(o.body, []))
    ensures DecodePayload(OpMessage, p) == Ok(o)
  {
    hide TakeU32, TakeCallsign, TakeText;
  }

  lemma MessageParses(o: Object, p: Bytes)
    requires o.Message?
    requires PrintMessage(o.sequence, o.conversationSequence, o.createdAt, o.author, o.recipient, o.body) == Ok(p)
    ensures DecodePayload(OpMessage, p) == Ok(o) && |p| <= 251
  {
    var a := PrintCallsign(o.author).value;
    var r := PrintCallsign(o.recipient).value;
    var b := PrintText(o.body, 1, MAX_MESSAGE_BODY).value;
    assert |a| <= 13 && |r| <= 13 && |b| <= 209;
    var p4 := r + b;
    var p3 := a + p4;
    var p2 := U32Bytes(o.createdAt) + p3;
    var p1 := U32Bytes(o.conversationSequence) + p2;
    U32FieldParses(o.sequence, p1);
    U32FieldParses(o.conversationSequence, p2);
    U32FieldParses(o.createdAt, p3);
    CallsignFieldParses(o.author, p4);
    CallsignFieldParses(o.recipient, b);
    LastTextParses(o.body, 1, MAX_MESSAGE_BODY);
    MessageFromFields(o, p, p1, p2, p3, p4, b);
  }

  lemma LastTextParses(s: Bytes, minimum: nat, maximum: nat)
    requires maximum <= 255 && PrintText(s, minimum, maximum).Ok?
    ensures TakeText(PrintText(s, minimum, maximum).value, minimum, maximum) == Ok(Parsed(s, []))
  {
    var b := PrintText(s, minimum, maximum).value;
    assert b + [] == b;
    TextFieldParses(s, minimum, maximum, []);
  }

  lemma BulletinHeaderFromFields(o: Object, p: Bytes, p1: Bytes, p2: Bytes, p3: Bytes)
    requires o.BulletinHeader? && o.sequence > 0 && o.createdAt > 0
    requires TakeU32(p) == Ok(Parsed(o.sequence, p1))
    requires TakeU32(p1) == Ok(Parsed(o.createdAt, p2))
    requires TakeCallsign(p2) == Ok(Parsed(o.author, p3))
    requires TakeText(p3, 1, MAX_TITLE) == Ok(Parsed(o.title, []))
    ensures DecodePayload(OpBulletinHeader, p) == Ok(o)
  {
    hide TakeU32, TakeCallsign, TakeText;
  }

  lemma BulletinHeaderParses(o: Object, p: Bytes)
    requires o.BulletinHeader?
    requires PrintBulletinHeader(o.sequence, o.createdAt, o.author, o.title) == Ok(p)
    ensures DecodePayload(OpBulletinHeader, p) == Ok(o) && |p| <= 251
  {
    var a := PrintCallsign(o.author).value;
    var t := PrintText(o.title, 1, MAX_TITLE).value;
    assert |a| <= 13 && |t| <= 65;
    var p2 := a + t;
    var p1 := U32Bytes(o.createdAt) + p2;
    U32FieldParses(o.sequence, p1);
    U32FieldParses(o.createdAt, p2);
    CallsignFieldParses(o.author, t);
    LastTextParses(o.title, 1, MAX_TITLE);
    BulletinHeaderFromFields(o, p, p1, p2, t);
  }

  lemma BulletinFromFields(o: Object, p: Bytes, p1: Bytes, p2: Bytes, p3: Bytes, p4: Bytes)
    requires o.Bulletin? && o.sequence > 0 && o.createdAt > 0
    requires TakeU32(p) == Ok(Parsed(o.sequence, p1))
    requires TakeU32(p1) == Ok(Parsed(o.createdAt, p2))
    requires TakeCallsign(p2) == Ok(Parsed(o.author, p3))
    requires TakeText(p3, 1, MAX_TITLE) == Ok(Parsed(o.title, p4))
    requires TakeText(p4, 1, MAX_BULLETIN_BODY) == Ok(Parsed(o.body, []))
    ensures DecodePayload(OpBulletin, p) == Ok(o)
  {
    hide TakeU32, TakeCallsign, TakeText;
  }

  lemma BulletinParses(o: Object, p: Bytes)
    requires o.Bulletin? && PrintBulletin(o.sequence, o.createdAt, o.author, o.title, o.body) == Ok(p)
    ensures DecodePayload(OpBulletin, p) == Ok(o) && |p| <= 251
  {
    var a := PrintCallsign(o.author).value;
    var t := PrintText(o.title, 1, MAX_TITLE).value;
    var b := PrintText(o.body, 1, MAX_BULLETIN_BODY).value;
    assert |a| <= 13 && |t| <= 65 && |b| <= 165;
    var p3 := t + b;
    var p2 := a + p3;
    var p1 := U32Bytes(o.createdAt) + p2;
    U32FieldParses(o.sequence, p1);
    U32FieldParses(o.createdAt, p2);
    CallsignFieldParses(o.author, p3);
    TextFieldParses(o.title, 1, MAX_TITLE, b);
    LastTextParses(o.body, 1, MAX_BULLETIN_BODY);
    BulletinFromFields(o, p, p1, p2, p3, b);
  }

  lemma ErrorParses(o: Object, p: Bytes)
    requires o.Error? && PrintError(o.failedOperation, o.errorCode, o.detail) == Ok(p)
    ensures DecodeErrorPayload(p) == Ok(o) && |p| <= 251
  {
    var d := PrintText(o.detail, 0, MAX_DETAIL).value;
    assert p[1..] == [ErrorCodeByte(o.errorCode)] + d;
    assert p[1..][1..] == d == d + [];
    TextFieldParses(o.detail, 0, MAX_DETAIL, []);
    CodesParse(o.failedOperation, o.errorCode);
  }

  lemma CodesParse(operation: Option<Operation>, code: ErrorCode)
    ensures OperationOf(if operation.None? then 0 else OperationCode(operation.value)) == operation
    ensures operation.Some? ==> OperationCode(operation.value) != 0
    ensures ErrorCodeOf(ErrorCodeByte(code)) == Some(code)
  {
  }

  lemma EndParses(o: Object, p: Bytes)
    requires o.End? && PrintEnd(o.requestOperation, o.returnedCount, o.nextSince, o.hasMore) == Ok(p)
    ensures DecodeEnd(p) == Ok(o) && |p| <= 251
  {
    U32RoundTrip(o.nextSince);
    CodesParse(Some(o.requestOperation), InvalidFrame);
    assert p[2..6] == U32Bytes(o.nextSince);
  }

  lemma RetrievalParses(since: int, max: int, messages: bool, p: Bytes)
    requires PrintRetrieval(since, max) == Ok(p)
    ensures DecodeRetrieval(p, messages) == Ok(if messages then GetNewMessages(since, max) else GetNewBulletins(since, max))
    ensures |p| <= 251
  {
    U32RoundTrip(since);
    assert p[..4] == U32Bytes(since);
  }

  lemma CapabilitiesParses(o: Object, p: Bytes)
    requires o.Capabilities? && PrintCapabilities(o.protocolVersion, o.capabilities) == Ok(p)
    ensures DecodeCapabilities(p) == Ok(o) && |p| <= 251
  {
    U32RoundTrip(o.capabilities);
    assert p[1..] == U32Bytes(o.capabilities);
  }

  lemma GetBulletinParses(o: Object, p: Bytes)
    requires o.GetBulletin? && PrintU32(o.sequence, true) == Ok(p)
    ensures DecodeGetBulletin(p) == Ok(o) && |p| <= 251
  {
    U32RoundTrip(o.sequence);
  }

  // Field limits keep every payload within one length byte.
  lemma PayloadParses(o: Object, p: Bytes)
    requires EncodePayload(o) == Ok(p)
    ensures |p| <= 251
    ensures !o.GetMessage? ==> DecodePayload(OperationFor(o), p) == Ok(o)
  {
    hide IsUtf8, IsCallsign, U32Value, U32Bytes, PrintText, PrintCallsign, TakeText, TakeCallsign, TakeU32;
    match o
    case SendMessage(_, _, _) => SendMessageParses(o, p);
    case GetNewMessages(since, max) => RetrievalParses(since, max, true, p);
    case GetNewBulletins(since, max) => RetrievalParses(since, max, false, p);
    case GetBulletin(sequence) => GetBulletinParses(o, p);
    case GetCapabilities =>
    case GetMessage(_, _) => GetMessageSize(o, p);
    case Message(_, _, _, _, _, _) => MessageParses(o, p);
    case BulletinHeader(_, _, _, _) => BulletinHeaderParses(o, p);
    case Bulletin(_, _, _, _, _) => BulletinParses(o, p);
    case End(_, _, _, _) => EndParses(o, p);
    case Stored =>
    case Error(_, _, _) => ErrorParses(o, p);
    case Capabilities(_, _) => CapabilitiesParses(o, p);
  }

  lemma GetMessageSize(o: Object, p: Bytes)
    requires o.GetMessage? && PrintGetMessage(o.peer, o.conversationSequence) == Ok(p)
    ensures |p| == 1 + |o.peer| + 4 <= 17 && 3 <= |o.peer|
    ensures p[0] == |o.peer| && p[1..1 + |o.peer|] == o.peer
    ensures p[1 + |o.peer|..] == U32Bytes(o.conversationSequence)
  {
  }

  function HeaderBytes(op: Operation, flags: byte, length: byte): Bytes {
    [PROTOCOL_VERSION, OperationCode(op), flags, length]
  }

  lemma GetMessageParses(o: Object, p: Bytes)
    requires o.GetMessage? && PrintGetMessage(o.peer, o.conversationSequence) == Ok(p) && |p| <= 255
    ensures DecodeGetMessageFrame(HeaderBytes(OpGetMessage, 0, |p| as byte) + p) == Ok(o)
  {
    GetMessageSize(o, p);
    var frame := HeaderBytes(OpGetMessage, 0, |p| as byte) + p;
    assert frame[4..] == p;
    U32RoundTrip(o.conversationSequence);
  }

  lemma HeaderParses(op: Operation, unsolicited: bool, p: Bytes)
    requires |p| <= 251 && (unsolicited ==> MayBeUnsolicited(op))
    ensures var frame := HeaderBytes(op, if unsolicited then 1 else 0, |p| as byte) + p;
            && DecodeHeader(frame, true) == Ok(Header(op, if unsolicited then 1 else 0, p))
            && DecodeHeader(frame, false) == (if unsolicited then Err(InvalidField) else Ok(Header(op, 0, p)))
            && (IsGetMessageFrame(frame) <==> op == OpGetMessage)
  {
    var frame := HeaderBytes(op, if unsolicited then 1 else 0, |p| as byte) + p;
    assert frame[4..] == p;
    CodesParse(Some(op), InvalidFrame);
    CodesParse(Some(OpGetMessage), InvalidFrame);
  }

  // decode_frame_with_flags undoes encode_frame, flag included; decode_frame
  // undoes it exactly when the frame is not flagged as unsolicited.
  lemma FrameParses(o: Object, unsolicited: bool, frame: Bytes)
    requires EncodeFrame(o, unsolicited) == Ok(frame)
    ensures HEADER_SIZE <= |frame| <= MAX_FRAME_SIZE
    ensures DecodeFrameWithFlags(frame) == Ok(Flagged(o, if unsolicited then 1 else 0))
    ensures DecodeFrame(frame) == if unsolicited then Err(InvalidField) else Ok(o)
  {
    var p := EncodePayload(o).value;
    PayloadParses(o, p);
    assert frame == HeaderBytes(OperationFor(o), if unsolicited then 1 else 0, |p| as byte) + p;
    HeaderParses(OperationFor(o), unsolicited, p);
    if o.GetMessage? {
      GetMessageParses(o, p);
    }
  }

  // Encoding fails only for a bad field or a flag the operation cannot carry:
  // the payload-size check never fires.
  lemma SizeCheckNeverFires(o: Object, unsolicited: bool)
    ensures EncodeFrame(o, unsolicited) != Err(PayloadTooLarge)
    ensures EncodeFrame(o, unsolicited).Ok? <==>
            EncodePayload(o).Ok? && (unsolicited ==> MayBeUnsolicited(OperationFor(o)))
  {
    if EncodePayload(o).Ok? {
      PayloadParses(o, EncodePayload(o).value);
    } else {
      NoFieldReportsSize(o);
    }
  }

  lemma NoFieldReportsSize(o: Object)
    ensures EncodePayload(o) != Err(PayloadTooLarge)
  {
  }

  // ---------------------------------------------- encode undoes decode

  lemma SendMessagePrints(p: Bytes, o: Object)
    requires DecodeSendMessage(p) == Ok(o)
    ensures o.SendMessage? && PrintSendMessage(o.createdAt, o.recipient, o.body) == Ok(p)
  {
    var createdAt := TakeU32(p).value;
    var recipient := TakeCallsign(createdAt.rest).value;
    U32FieldPrints(p);
    CallsignFieldPrints(createdAt.rest);
    TextFieldPrints(recipient.rest, 1, MAX_MESSAGE_BODY);
    assert recipient.rest + [] == recipient.rest;
  }

  lemma MessagePrints(p: Bytes, o: Object)
    requires DecodeMessage(p) == Ok(o)
    ensures o.Message?
    ensures PrintMessage(o.sequence, o.conversationSequence, o.createdAt, o.author, o.recipient, o.body) == Ok(p)
  {
    hide TakeU32, TakeCallsign, TakeText, PrintU32, PrintCallsign, PrintText, PrintMessage;
    var p1 := TakeU32(p).value.rest;
    var p2 := TakeU32(p1).value.rest;
    var p3 := TakeU32(p2).value.rest;
    var p4 := TakeCallsign(p3).value.rest;
    var p5 := TakeCallsign(p4).value.rest;
    NonzeroFieldPrints(p);
    NonzeroFieldPrints(p1);
    NonzeroFieldPrints(p2);
    CallsignFieldPrints(p3);
    CallsignFieldPrints(p4);
    LastTextPrints(p5, 1, MAX_MESSAGE_BODY);
    MessageOfFields(o, p, p1, p2, p3, p4, p5);
  }

  lemma NonzeroFieldPrints(s: Bytes)
    requires TakeU32(s).Ok? && TakeU32(s).value.value != 0
    ensures var v := TakeU32(s).value;
            PrintU32(v.value, true).Ok? && s == PrintU32(v.value, true).value + v.rest
  {
    U32FieldPrints(s);
  }

  lemma MessageOfFields(o: Object, p: Bytes, p1: Bytes, p2: Bytes, p3: Bytes, p4: Bytes, p5: Bytes)
    requires o.Message?
    requires PrintU32(o.sequence, true).Ok? && p == PrintU32(o.sequence, true).value + p1
    requires PrintU32(o.conversationSequence, true).Ok? && p1 == PrintU32(o.conversationSequence, true).value + p2
    requires PrintU32(o.createdAt, true).Ok? && p2 == PrintU32(o.createdAt, true).value + p3
    requires PrintCallsign(o.author).Ok? && p3 == PrintCallsign(o.author).value + p4
    requires PrintCallsign(o.recipient).Ok? && p4 == PrintCallsign(o.recipient).value + p5
    requires PrintText(o.body, 1, MAX_MESSAGE_BODY) == Ok(p5)
    ensures PrintMessage(o.sequence, o.conversationSequence, o.createdAt, o.author, o.recipient, o.body) == Ok(p)
  {
  }

  lemma LastTextPrints(s: Bytes, minimum: nat, maximum: nat)
    requires maximum <= 255 && TakeText(s, minimum, maximum).Ok? && TakeText(s, minimum, maximum).value.rest == []
    ensures PrintText(TakeText(s, minimum, maximum).value.value, minimum, maximum) == Ok(s)
  {
    TextFieldPrints(s, minimum, maximum);
    var b := PrintText(TakeText(s, minimum, maximum).value.value, minimum, maximum).value;
    assert b + [] == b;
  }

  lemma BulletinHeaderPrints(p: Bytes, o: Object)
    requires DecodeBulletinHeader(p) == Ok(o)
    ensures o.BulletinHeader? && PrintBulletinHeader(o.sequence, o.createdAt, o.author, o.title) == Ok(p)
  {
    hide IsUtf8, IsCallsign, U32Value, U32Bytes;
    var sequence := TakeU32(p).value;
    var createdAt := TakeU32(sequence.rest).value;
    var author := TakeCallsign(createdAt.rest).value;
    U32FieldPrints(p);
    U32FieldPrints(sequence.rest);
    CallsignFieldPrints(createdAt.rest);
    TextFieldPrints(author.rest, 1, MAX_TITLE);
    assert author.rest + [] == author.rest;
  }

  lemma BulletinPrints(p: Bytes, o: Object)
    requires DecodeBulletin(p) == Ok(o)
    ensures o.Bulletin? && PrintBulletin(o.sequence, o.createdAt, o.author, o.title, o.body) == Ok(p)
  {
    hide TakeU32, TakeCallsign, TakeText, PrintU32, PrintCallsign, PrintText, PrintBulletin;
    var p1 := TakeU32(p).value.rest;
    var p2 := TakeU32(p1).value.rest;
    var p3 := TakeCallsign(p2).value.rest;
    var p4 := TakeText(p3, 1, MAX_TITLE).value.rest;
    NonzeroFieldPrints(p);
    NonzeroFieldPrints(p1);
    CallsignFieldPrints(p2);
    TextFieldPrints(p3, 1, MAX_TITLE);
    LastTextPrints(p4, 1, MAX_BULLETIN_BODY);
    BulletinOfFields(o, p, p1, p2, p3, p4);
  }

  lemma BulletinOfFields(o: Object, p: Bytes, p1: Bytes, p2: Bytes, p3: Bytes, p4: Bytes)
    requires o.Bulletin?
    requires PrintU32(o.sequence, true).Ok? && p == PrintU32(o.sequence, true).value + p1
    requires PrintU32(o.createdAt, true).Ok? && p1 == PrintU32(o.createdAt, true).value + p2
    requires PrintCallsign(o.author).Ok? && p2 == PrintCallsign(o.author).value + p3
    requires PrintText(o.title, 1, MAX_TITLE).Ok? && p3 == PrintText(o.title, 1, MAX_TITLE).value + p4
    requires PrintText(o.body, 1, MAX_BULLETIN_BODY) == Ok(p4)
    ensures PrintBulletin(o.sequence, o.createdAt, o.author, o.title, o.body) == Ok(p)
  {
  }

  lemma ErrorPrints(p: Bytes, o: Object)
    requires DecodeErrorPayload(p) == Ok(o)
    ensures o.Error? && PrintError(o.failedOperation, o.errorCode, o.detail) == Ok(p)
  {
    var tail := p[1..][1..];
    TextFieldPrints(tail, 0, MAX_DETAIL);
    assert p == [p[0]] + ([p[1]] + tail) && tail + [] == tail;
  }

  lemma EndPrints(p: Bytes, o: Object)
    requires DecodeEnd(p) == Ok(o)
    ensures o.End? && PrintEnd(o.requestOperation, o.returnedCount, o.nextSince, o.hasMore) == Ok(p)
  {
    U32Canonical(p[2..6]);
    assert p == [p[0]] + ([p[1]] + (p[2..6] + [p[6]]));
  }

  lemma RetrievalPrints(p: Bytes, messages: bool)
    requires DecodeRetrieval(p, messages).Ok?
    ensures var o := DecodeRetrieval(p, messages).value;
            if messages then o.GetNewMessages? && PrintRetrieval(o.since, o.max) == Ok(p)
            else o.GetNewBulletins? && PrintRetrieval(o.since, o.max) == Ok(p)
  {
    U32Canonical(p[..4]);
    assert p == p[..4] + [p[4]];
  }

  lemma GetBulletinPrints(p: Bytes, o: Object)
    requires DecodeGetBulletin(p) == Ok(o)
    ensures o.GetBulletin? && PrintU32(o.sequence, true) == Ok(p)
  {
    U32Canonical(p);
  }

  // The one decodable object the encoder refuses.
  predicate VersionZero(o: Object) {
    o.Capabilities? && o.protocolVersion == 0
  }

  lemma CapabilitiesPrints(p: Bytes, o: Object)
    requires DecodeCapabilities(p) == Ok(o)
    ensures o.Capabilities?
    ensures PrintCapabilities(o.protocolVersion, o.capabilities) == if VersionZero(o) then Err(BadField) else Ok(p)
  {
    U32Canonical(p[1..]);
    assert p == [p[0]] + p[1..];
  }

  lemma PayloadPrints(op: Operation, p: Bytes, o: Object)
    requires op != OpGetMessage && DecodePayload(op, p) == Ok(o)
    ensures OperationFor(o) == op
    ensures EncodePayload(o) == if VersionZero(o) then Err(BadField) else Ok(p)
  {
    hide DecodeSendMessage, DecodeRetrieval, DecodeGetBulletin, DecodeMessage, DecodeBulletinHeader, DecodeBulletin;
    hide DecodeEnd, DecodeErrorPayload, DecodeCapabilities;
    hide PrintSendMessage, PrintRetrieval, PrintU32, PrintGetMessage, PrintMessage, PrintBulletinHeader, PrintBulletin;
    hide PrintEnd, PrintError, PrintCapabilities;
    match op
    case OpSendMessage => SendMessagePrints(p, o);
    case OpGetNewMessages => RetrievalPrints(p, true);
    case OpGetNewBulletins => RetrievalPrints(p, false);
    case OpGetBulletin => GetBulletinPrints(p, o);
    case OpGetCapabilities =>
    case OpMessage => MessagePrints(p, o);
    case OpBulletinHeader => BulletinHeaderPrints(p, o);
    case OpBulletin => BulletinPrints(p, o);
    case OpEnd => EndPrints(p, o);
    case OpStored =>
    case OpError => ErrorPrints(p, o);
    case OpCapabilities => CapabilitiesPrints(p, o);
  }

  lemma GetMessagePrints(data: Bytes, o: Object)
    requires DecodeGetMessageFrame(data) == Ok(o)
    ensures o.GetMessage? && EncodeFrame(o, false) == Ok(data)
  {
    var payload := data[4..];
    var n := payload[0];
    CallsignIsText(o.peer);
    U32Canonical(payload[1 + n..]);
    assert payload == ([n] + o.peer) + U32Bytes(o.conversationSequence);
    assert EncodePayload(o) == Ok(payload);
    PayloadParses(o, payload);
    assert data == [data[0], data[1], data[2], data[3]] + payload;
  }

  // Re-encoding an accepted frame gives the same bytes; the single exception
  // is a CAPABILITIES frame whose version byte is zero, which is refused.
  lemma FramePrints(data: Bytes, f: Flagged)
    requires DecodeFrameWithFlags(data) == Ok(f)
    ensures f.flags <= 1
    ensures EncodeFrame(f.obj, f.flags == 1) == if VersionZero(f.obj) then Err(BadField) else Ok(data)
  {
    hide EncodePayload, DecodePayload, DecodeGetMessageFrame, DecodeHeader, OperationCode, OperationOf;
    if IsGetMessageFrame(data) {
      GetMessagePrints(data, f.obj);
    } else {
      var h := DecodeHeader(data, true).value;
      HeaderPrints(data, h);
      PayloadPrints(h.operation, h.payload, f.obj);
      if !VersionZero(f.obj) {
        PayloadParses(f.obj, h.payload);
      }
    }
  }

  lemma HeaderPrints(data: Bytes, h: Header)
    requires DecodeHeader(data, true) == Ok(h) && !IsGetMessageFrame(data)
    ensures h.operation != OpGetMessage && h.flags <= 1 && |h.payload| <= 255
    ensures h.flags == 1 ==> MayBeUnsolicited(h.operation)
    ensures data == HeaderBytes(h.operation, h.flags, |h.payload| as byte) + h.payload
  {
    assert data == [data[0], data[1], data[2], data[3]] + h.payload;
  }

  // The request decoder accepts exactly the unflagged part of what the
  // flag-keeping decoder accepts.
  lemma DecodersAgree(data: Bytes)
    ensures DecodeFrame(data).Ok? <==>
            DecodeFrameWithFlags(data).Ok? && DecodeFrameWithFlags(data).value.flags == 0
    ensures DecodeFrame(data).Ok? ==> DecodeFrame(data).value == DecodeFrameWithFlags(data).value.obj
  {
  }
}
