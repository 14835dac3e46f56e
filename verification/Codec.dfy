// The Core frame codec: thirteen operations, each a printer and a parser.
module Codec {
  import opened Prelude
  import opened Text

  const PROTOCOL_VERSION: byte := 1
  const HEADER_SIZE: nat := 4
  const MAX_FRAME_SIZE: nat := 259
  const MAX_MESSAGE_BODY: nat := 208
  const MAX_TITLE: nat := 64
  const MAX_BULLETIN_BODY: nat := 164
  const MAX_DETAIL: nat := 64
  const MAX_RETRIEVAL: nat := 20

  datatype Operation =
    | OpSendMessage | OpGetNewMessages | OpGetNewBulletins | OpGetBulletin | OpGetCapabilities
    | OpGetMessage
    | OpMessage | OpBulletinHeader | OpBulletin | OpEnd | OpStored | OpError | OpCapabilities

  function OperationCode(op: Operation): byte {
    match op
    case OpSendMessage => 0x01
    case OpGetNewMessages => 0x02
    case OpGetNewBulletins => 0x03
    case OpGetBulletin => 0x04
    case OpGetCapabilities => 0x05
    case OpGetMessage => 0x06
    case OpMessage => 0x40
    case OpBulletinHeader => 0x41
    case OpBulletin => 0x42
    case OpEnd => 0x43
    case OpStored => 0x44
    case OpError => 0x45
    case OpCapabilities => 0x46
  }

  function OperationOf(code: byte): (op: Option<Operation>)
    ensures op.Some? ==> OperationCode(op.value) == code
    ensures op.None? ==> forall o: Operation :: OperationCode(o) != code
  {
    match code
    case 0x01 => Some(OpSendMessage)
    case 0x02 => Some(OpGetNewMessages)
    case 0x03 => Some(OpGetNewBulletins)
    case 0x04 => Some(OpGetBulletin)
    case 0x05 => Some(OpGetCapabilities)
    case 0x06 => Some(OpGetMessage)
    case 0x40 => Some(OpMessage)
    case 0x41 => Some(OpBulletinHeader)
    case 0x42 => Some(OpBulletin)
    case 0x43 => Some(OpEnd)
    case 0x44 => Some(OpStored)
    case 0x45 => Some(OpError)
    case 0x46 => Some(OpCapabilities)
    case _ => None
  }

  datatype ErrorCode =
    | InvalidFrame | UnsupportedVersionCode | UnknownOperationCode | InvalidFieldCode | InvalidCursor
    | Unauthorized | NotFound | TooLarge | Busy | InternalError | Rejected

  function ErrorCodeByte(c: ErrorCode): byte {
    match c
    case InvalidFrame => 0x01
    case UnsupportedVersionCode => 0x02
    case UnknownOperationCode => 0x03
    case InvalidFieldCode => 0x04
    case InvalidCursor => 0x05
    case Unauthorized => 0x06
    case NotFound => 0x07
    case TooLarge => 0x08
    case Busy => 0x09
    case InternalError => 0x0A
    case Rejected => 0x0B
  }

  function ErrorCodeOf(b: byte): (c: Option<ErrorCode>)
    ensures c.Some? ==> ErrorCodeByte(c.value) == b
    ensures c.None? ==> forall e: ErrorCode :: ErrorCodeByte(e) != b
  {
    match b
    case 0x01 => Some(InvalidFrame)
    case 0x02 => Some(UnsupportedVersionCode)
    case 0x03 => Some(UnknownOperationCode)
    case 0x04 => Some(InvalidFieldCode)
    case 0x05 => Some(InvalidCursor)
    case 0x06 => Some(Unauthorized)
    case 0x07 => Some(NotFound)
    case 0x08 => Some(TooLarge)
    case 0x09 => Some(Busy)
    case 0x0A => Some(InternalError)
    case 0x0B => Some(Rejected)
    case _ => None
  }

  // Text fields are their UTF-8 bytes.
  datatype Object =
    | SendMessage(createdAt: int, recipient: Bytes, body: Bytes)
    | GetNewMessages(since: int, max: int)
    | GetNewBulletins(since: int, max: int)
    | GetBulletin(sequence: int)
    | GetCapabilities
    | GetMessage(peer: Bytes, conversationSequence: int)
    | Message(sequence: int, conversationSequence: int, createdAt: int,
              author: Bytes, recipient: Bytes, body: Bytes)
    | BulletinHeader(sequence: int, createdAt: int, author: Bytes, title: Bytes)
    | Bulletin(sequence: int, createdAt: int, author: Bytes, title: Bytes, body: Bytes)
    | End(requestOperation: Operation, returnedCount: int, nextSince: int, hasMore: bool)
    | Stored
    | Error(failedOperation: Option<Operation>, errorCode: ErrorCode, detail: Bytes)
    | Capabilities(protocolVersion: int, capabilities: int)

  function OperationFor(o: Object): Operation {
    match o
    case SendMessage(_, _, _) => OpSendMessage
    case GetNewMessages(_, _) => OpGetNewMessages
    case GetNewBulletins(_, _) => OpGetNewBulletins
    case GetBulletin(_) => OpGetBulletin
    case GetCapabilities => OpGetCapabilities
    case GetMessage(_, _) => OpGetMessage
    case Message(_, _, _, _, _, _) => OpMessage
    case BulletinHeader(_, _, _, _) => OpBulletinHeader
    case Bulletin(_, _, _, _, _) => OpBulletin
    case End(_, _, _, _) => OpEnd
    case Stored => OpStored
    case Error(_, _, _) => OpError
    case Capabilities(_, _) => OpCapabilities
  }

  predicate MayBeUnsolicited(op: Operation) {
    op == OpMessage || op == OpBulletinHeader
  }

  datatype DecodeError = PayloadLength | UnsupportedVersion | UnknownOperation | InvalidField

  datatype EncodeError = BadField | FieldTooLong | PayloadTooLarge | NotUnsolicited

  // ---------------------------------------------------------------- printing

  function PrintU8(v: int, nonzero: bool): Result<Bytes, EncodeError> {
    if 0 <= v <= 255 && !(nonzero && v == 0) then Ok([v as byte]) else Err(BadField)
  }

  function PrintU32(v: int, nonzero: bool): Result<Bytes, EncodeError> {
    if 0 <= v <= MAX_U32 && !(nonzero && v == 0) then Ok(U32Bytes(v)) else Err(BadField)
  }

  function PrintText(s: Bytes, minimum: nat, maximum: nat): Result<Bytes, EncodeError>
    requires maximum <= 255
  {
    if !IsUtf8(s) || 0 in s then Err(BadField)
    else if |s| > maximum then Err(FieldTooLong)
    else if |s| < minimum then Err(BadField)
    else Ok([|s| as byte] + s)
  }

  function PrintCallsign(s: Bytes): Result<Bytes, EncodeError> {
    var text :- PrintText(s, 3, 12);
    if IsCallsign(s) then Ok(text) else Err(BadField)
  }

  function PrintMax(v: int): Result<Bytes, EncodeError> {
    if 1 <= v <= MAX_RETRIEVAL then Ok([v as byte]) else Err(BadField)
  }

  function PrintSendMessage(createdAt: int, recipient: Bytes, body: Bytes): Result<Bytes, EncodeError> {
    var r :- PrintCallsign(recipient);
    var b :- PrintText(body, 1, MAX_MESSAGE_BODY);
    var c :- PrintU32(createdAt, true);
    Ok(c + (r + b))
  }

  function PrintRetrieval(since: int, max: int): Result<Bytes, EncodeError> {
    var m :- PrintMax(max);
    var s :- PrintU32(since, false);
    Ok(s + m)
  }

  function PrintGetMessage(peer: Bytes, conversationSequence: int): Result<Bytes, EncodeError> {
    var p :- PrintCallsign(peer);
    var c :- PrintU32(conversationSequence, true);
    Ok(p + c)
  }

  function PrintMessage(sequence: int, conversationSequence: int, createdAt: int,
                        author: Bytes, recipient: Bytes, body: Bytes): Result<Bytes, EncodeError>
  {
    var a :- PrintCallsign(author);
    var r :- PrintCallsign(recipient);
    var b :- PrintText(body, 1, MAX_MESSAGE_BODY);
    var s :- PrintU32(sequence, true);
    var k :- PrintU32(conversationSequence, true);
    var c :- PrintU32(createdAt, true);
    Ok(s + (k + (c + (a + (r + b)))))
  }

  function PrintBulletinHeader(sequence: int, createdAt: int, author: Bytes, title: Bytes)
    : Result<Bytes, EncodeError>
  {
    var a :- PrintCallsign(author);
    var t :- PrintText(title, 1, MAX_TITLE);
    var s :- PrintU32(sequence, true);
    var c :- PrintU32(createdAt, true);
    Ok(s + (c + (a + t)))
  }

  function PrintBulletin(sequence: int, createdAt: int, author: Bytes, title: Bytes, body: Bytes)
    : Result<Bytes, EncodeError>
  {
    var a :- PrintCallsign(author);
    var t :- PrintText(title, 1, MAX_TITLE);
    var b :- PrintText(body, 1, MAX_BULLETIN_BODY);
    var s :- PrintU32(sequence, true);
    var c :- PrintU32(createdAt, true);
    Ok(s + (c + (a + (t + b))))
  }

  function PrintEnd(operation: Operation, count: int, nextSince: int, hasMore: bool): Result<Bytes, EncodeError> {
    if operation != OpGetNewMessages && operation != OpGetNewBulletins then Err(BadField)
    else
      var n :- PrintU8(count, false);
      var s :- PrintU32(nextSince, false);
      Ok([OperationCode(operation)] + (n + (s + [if hasMore then 1 else 0])))
  }

  function PrintError(operation: Option<Operation>, code: ErrorCode, detail: Bytes): Result<Bytes, EncodeError> {
    var d :- PrintText(detail, 0, MAX_DETAIL);
    Ok([if operation.None? then 0 else OperationCode(operation.value)] + ([ErrorCodeByte(code)] + d))
  }

  function PrintCapabilities(version: int, capabilities: int): Result<Bytes, EncodeError> {
    var v :- PrintU8(version, true);
    var c :- PrintU32(capabilities, false);
    Ok(v + c)
  }

  function EncodePayload(o: Object): Result<Bytes, EncodeError> {
    match o
    case SendMessage(createdAt, recipient, body) => PrintSendMessage(createdAt, recipient, body)
    case GetNewMessages(since, max) => PrintRetrieval(since, max)
    case GetNewBulletins(since, max) => PrintRetrieval(since, max)
    case GetBulletin(sequence) => PrintU32(sequence, true)
    case GetCapabilities => Ok([])
    case GetMessage(peer, n) => PrintGetMessage(peer, n)
    case Message(sequence, n, createdAt, author, recipient, body) =>
      PrintMessage(sequence, n, createdAt, author, recipient, body)
    case BulletinHeader(sequence, createdAt, author, title) =>
      PrintBulletinHeader(sequence, createdAt, author, title)
    case Bulletin(sequence, createdAt, author, title, body) =>
      PrintBulletin(sequence, createdAt, author, title, body)
    case End(operation, count, nextSince, hasMore) => PrintEnd(operation, count, nextSince, hasMore)
    case Stored => Ok([])
    case Error(operation, code, detail) => PrintError(operation, code, detail)
    case Capabilities(version, capabilities) => PrintCapabilities(version, capabilities)
  }

  function EncodeFrame(o: Object, unsolicited: bool): Result<Bytes, EncodeError> {
    if unsolicited && !MayBeUnsolicited(OperationFor(o)) then Err(NotUnsolicited)
    else
      var payload :- EncodePayload(o);
      if |payload| > 0xFF then Err(PayloadTooLarge)
      else Ok([PROTOCOL_VERSION, OperationCode(OperationFor(o)), if unsolicited then 1 else 0,
               |payload| as byte] + payload)
  }

  // ----------------------------------------------------------------- parsing

  datatype Parsed<+T> = Parsed(value: T, rest: Bytes)

  type ParseResult<+T> = Result<Parsed<T>, DecodeError>

  function TakeU8(s: Bytes): ParseResult<byte> {
    if |s| < 1 then Err(PayloadLength) else Ok(Parsed(s[0], s[1..]))
  }

  function TakeU32(s: Bytes): ParseResult<nat> {
    if |s| < 4 then Err(PayloadLength) else Ok(Parsed(U32Value(s[..4]), s[4..]))
  }

  function TakePrefixed(s: Bytes): ParseResult<Bytes> {
    var n :- TakeU8(s);
    if |n.rest| < n.value then Err(PayloadLength)
    else Ok(Parsed(n.rest[..n.value], n.rest[n.value..]))
  }

  function TakeText(s: Bytes, minimum: nat, maximum: nat): ParseResult<Bytes> {
    var field :- TakePrefixed(s);
    if ValidText(field.value, minimum, maximum) then Ok(field) else Err(InvalidField)
  }

  function TakeCallsign(s: Bytes): ParseResult<Bytes> {
    var field :- TakePrefixed(s);
    if IsCallsign(field.value) then Ok(field) else Err(InvalidField)
  }

  function DecodeSendMessage(payload: Bytes): Result<Object, DecodeError> {
    var createdAt :- TakeU32(payload);
    var recipient :- TakeCallsign(createdAt.rest);
    var body :- TakeText(recipient.rest, 1, MAX_MESSAGE_BODY);
    if body.rest != [] then Err(PayloadLength)
    else if createdAt.value == 0 then Err(InvalidField)
    else Ok(SendMessage(createdAt.value, recipient.value, body.value))
  }

  function DecodeMessage(payload: Bytes): Result<Object, DecodeError> {
    var sequence :- TakeU32(payload);
    var number :- TakeU32(sequence.rest);
    var createdAt :- TakeU32(number.rest);
    var author :- TakeCallsign(createdAt.rest);
    var recipient :- TakeCallsign(author.rest);
    var body :- TakeText(recipient.rest, 1, MAX_MESSAGE_BODY);
    if body.rest != [] then Err(PayloadLength)
    else if sequence.value == 0 || number.value == 0 || createdAt.value == 0 then Err(InvalidField)
    else Ok(Message(sequence.value, number.value, createdAt.value,
                    author.value, recipient.value, body.value))
  }

  function DecodeBulletinHeader(payload: Bytes): Result<Object, DecodeError> {
    var sequence :- TakeU32(payload);
    var createdAt :- TakeU32(sequence.rest);
    var author :- TakeCallsign(createdAt.rest);
    var title :- TakeText(author.rest, 1, MAX_TITLE);
    if title.rest != [] then Err(PayloadLength)
    else if sequence.value == 0 || createdAt.value == 0 then Err(InvalidField)
    else Ok(BulletinHeader(sequence.value, createdAt.value, author.value, title.value))
  }

  function DecodeBulletin(payload: Bytes): Result<Object, DecodeError> {
    var sequence :- TakeU32(payload);
    var createdAt :- TakeU32(sequence.rest);
    var author :- TakeCallsign(createdAt.rest);
    var title :- TakeText(author.rest, 1, MAX_TITLE);
    var body :- TakeText(title.rest, 1, MAX_BULLETIN_BODY);
    if body.rest != [] then Err(PayloadLength)
    else if sequence.value == 0 || createdAt.value == 0 then Err(InvalidField)
    else Ok(Bulletin(sequence.value, createdAt.value, author.value, title.value, body.value))
  }

  function DecodeErrorPayload(payload: Bytes): Result<Object, DecodeError> {
    var operation :- TakeU8(payload);
    var code :- TakeU8(operation.rest);
    var detail :- TakeText(code.rest, 0, MAX_DETAIL);
    if detail.rest != [] then Err(PayloadLength)
    else if operation.value != 0 && OperationOf(operation.value).None? then Err(InvalidField)
    else if ErrorCodeOf(code.value).None? then Err(InvalidField)
    else Ok(Error(OperationOf(operation.value), ErrorCodeOf(code.value).value, detail.value))
  }

  function DecodeRetrieval(payload: Bytes, messages: bool): Result<Object, DecodeError> {
    if |payload| != 5 then Err(PayloadLength)
    else if !(1 <= payload[4] <= MAX_RETRIEVAL) then Err(InvalidField)
    else if messages then Ok(GetNewMessages(U32Value(payload[..4]), payload[4]))
    else Ok(GetNewBulletins(U32Value(payload[..4]), payload[4]))
  }

  function DecodeEnd(payload: Bytes): Result<Object, DecodeError> {
    if |payload| != 7 then Err(PayloadLength)
    else
      var operation := OperationOf(payload[0]);
      if operation != Some(OpGetNewMessages) && operation != Some(OpGetNewBulletins) then Err(InvalidField)
      else if payload[6] != 0 && payload[6] != 1 then Err(InvalidField)
      else Ok(End(operation.value, payload[1], U32Value(payload[2..6]), payload[6] == 1))
  }

  function DecodeGetBulletin(payload: Bytes): Result<Object, DecodeError> {
    if |payload| != 4 then Err(PayloadLength)
    else if U32Value(payload) == 0 then Err(InvalidField)
    else Ok(GetBulletin(U32Value(payload)))
  }

  function DecodeCapabilities(payload: Bytes): Result<Object, DecodeError> {
    if |payload| != 5 then Err(PayloadLength)
    else Ok(Capabilities(payload[0], U32Value(payload[1..])))
  }

  // The generic decoder's table; GET_MESSAGE is not in it.
  function DecodePayload(op: Operation, payload: Bytes): Result<Object, DecodeError>
    requires op != OpGetMessage
  {
    match op
    case OpSendMessage => DecodeSendMessage(payload)
    case OpGetNewMessages => DecodeRetrieval(payload, true)
    case OpGetNewBulletins => DecodeRetrieval(payload, false)
    case OpGetBulletin => DecodeGetBulletin(payload)
    case OpGetCapabilities => if payload != [] then Err(PayloadLength) else Ok(GetCapabilities)
    case OpMessage => DecodeMessage(payload)
    case OpBulletinHeader => DecodeBulletinHeader(payload)
    case OpBulletin => DecodeBulletin(payload)
    case OpEnd => DecodeEnd(payload)
    case OpStored => if payload != [] then Err(PayloadLength) else Ok(Stored)
    case OpError => DecodeErrorPayload(payload)
    case OpCapabilities => DecodeCapabilities(payload)
  }

  datatype Header = Header(operation: Operation, flags: byte, payload: Bytes)

  function DecodeHeader(data: Bytes, allowUnsolicited: bool): Result<Header, DecodeError> {
    if |data| < HEADER_SIZE || |data| > MAX_FRAME_SIZE then Err(PayloadLength)
    else if data[0] != PROTOCOL_VERSION then Err(UnsupportedVersion)
    else if OperationOf(data[1]).None? then Err(UnknownOperation)
    else
      var operation := OperationOf(data[1]).value;
      if data[2] > (if allowUnsolicited then 1 else 0) then Err(InvalidField)
      else if data[2] == 1 && !MayBeUnsolicited(operation) then Err(InvalidField)
      else if |data| - HEADER_SIZE != data[3] then Err(PayloadLength)
      else Ok(Header(operation, data[2], data[4..]))
  }

  predicate IsGetMessageFrame(data: Bytes) {
    |data| >= 2 && data[0] == PROTOCOL_VERSION && data[1] == OperationCode(OpGetMessage)
  }

  function DecodeGetMessageFrame(data: Bytes): Result<Object, DecodeError> {
    if |data| < HEADER_SIZE then Err(PayloadLength)
    else if data[0] != PROTOCOL_VERSION || data[1] != OperationCode(OpGetMessage) || data[2] != 0 then
      Err(InvalidField)
    else
      var payload := data[4..];
      if data[3] as int != |payload| then Err(PayloadLength)
      else if |payload| < 1 + 3 + 4 then Err(PayloadLength)
      else
        var n := payload[0];
        if !(3 <= n <= 12) then Err(InvalidField)
        else if |payload| != 1 + n + 4 then Err(PayloadLength)
        else if !IsCallsign(payload[1..1 + n]) then Err(InvalidField)
        else if U32Value(payload[1 + n..]) == 0 then Err(InvalidField)
        else Ok(GetMessage(payload[1..1 + n], U32Value(payload[1 + n..])))
  }

  datatype Flagged = Flagged(obj: Object, flags: byte)

  function DecodeFrame(data: Bytes): Result<Object, DecodeError> {
    if IsGetMessageFrame(data) then DecodeGetMessageFrame(data)
    else
      var header :- DecodeHeader(data, false);
      DecodePayload(header.operation, header.payload)
  }

  function DecodeFrameWithFlags(data: Bytes): Result<Flagged, DecodeError> {
    if IsGetMessageFrame(data) then
      var obj :- DecodeGetMessageFrame(data);
      Ok(Flagged(obj, 0))
    else
      var header :- DecodeHeader(data, true);
      var obj :- DecodePayload(header.operation, header.payload);
      Ok(Flagged(obj, header.flags))
  }

  // ------------------------------------------------------------------ reader

  // The source's bounds-checked cursor over one payload.
  class Reader {
    const payload: Bytes
    var offset: nat

    ghost predicate Valid()
      reads this
    {
      offset <= |payload|
    }

    ghost function Rest(): Bytes
      requires Valid()
      reads this
    {
      payload[offset..]
    }

    constructor (payload: Bytes)
      ensures Valid() && Rest() == payload
    {
      this.payload := payload;
      this.offset := 0;
    }

    method Take(size: nat) returns (r: Result<Bytes, DecodeError>)
      requires Valid()
      modifies this
      ensures Valid()
      ensures size <= |old(Rest())| ==> r == Ok(old(Rest())[..size]) && Rest() == old(Rest())[size..]
      ensures size > |old(Rest())| ==> r == Err(PayloadLength) && Rest() == old(Rest())
    {
      var end := offset + size;
      if end > |payload| {
        return Err(PayloadLength);
      }
      assert Rest()[..size] == payload[offset..end] && Rest()[size..] == payload[end..];
      r := Ok(payload[offset..end]);
      offset := end;
    }

    method U8() returns (r: Result<byte, DecodeError>)
      requires Valid()
      modifies this
      ensures Valid()
      ensures match TakeU8(old(Rest()))
              case Ok(p) => r == Ok(p.value) && Rest() == p.rest
              case Err(e) => r == Err(e)
    {
      var s :- Take(1);
      r := Ok(s[0]);
    }

    method U32() returns (r: Result<nat, DecodeError>)
      requires Valid()
      modifies this
      ensures Valid()
      ensures match TakeU32(old(Rest()))
              case Ok(p) => r == Ok(p.value) && Rest() == p.rest
              case Err(e) => r == Err(e)
    {
      var s :- Take(4);
      r := Ok(U32Value(s));
    }

    method Prefixed() returns (r: Result<Bytes, DecodeError>)
      requires Valid()
      modifies this
      ensures Valid()
      ensures match TakePrefixed(old(Rest()))
              case Ok(p) => r == Ok(p.value) && Rest() == p.rest
              case Err(e) => r == Err(e)
    {
      var size :- U8();
      r := Take(size);
    }

    method Callsign() returns (r: Result<Bytes, DecodeError>)
      requires Valid()
      modifies this
      ensures Valid()
      ensures match TakeCallsign(old(Rest()))
              case Ok(p) => r == Ok(p.value) && Rest() == p.rest
              case Err(e) => r == Err(e)
    {
      var s :- Prefixed();
      r := if IsCallsign(s) then Ok(s) else Err(InvalidField);
    }

    method TextField(minimum: nat, maximum: nat) returns (r: Result<Bytes, DecodeError>)
      requires Valid()
      modifies this
      ensures Valid()
      ensures match TakeText(old(Rest()), minimum, maximum)
              case Ok(p) => r == Ok(p.value) && Rest() == p.rest
              case Err(e) => r == Err(e)
    {
      var s :- Prefixed();
      r := if ValidText(s, minimum, maximum) then Ok(s) else Err(InvalidField);
    }

    predicate Finished()
      requires Valid()
      reads this
      ensures Finished() <==> Rest() == []
    {
      offset == |payload|
    }
  }

  method ReadSendMessage(payload: Bytes) returns (r: Result<Object, DecodeError>)
    ensures r == DecodeSendMessage(payload)
  {
    var reader := new Reader(payload);
    var createdAt :- reader.U32();
    var recipient :- reader.Callsign();
    var body :- reader.TextField(1, MAX_MESSAGE_BODY);
    if !reader.Finished() {
      return Err(PayloadLength);
    }
    if createdAt == 0 {
      return Err(InvalidField);
    }
    r := Ok(SendMessage(createdAt, recipient, body));
  }

  method ReadMessage(payload: Bytes) returns (r: Result<Object, DecodeError>)
    ensures r == DecodeMessage(payload)
  {
    var reader := new Reader(payload);
    var sequence :- reader.U32();
    var number :- reader.U32();
    var createdAt :- reader.U32();
    var author :- reader.Callsign();
    var recipient :- reader.Callsign();
    var body :- reader.TextField(1, MAX_MESSAGE_BODY);
    if !reader.Finished() {
      return Err(PayloadLength);
    }
    if sequence == 0 || number == 0 || createdAt == 0 {
      return Err(InvalidField);
    }
    r := Ok(Message(sequence, number, createdAt, author, recipient, body));
  }

  method ReadBulletinHeader(payload: Bytes) returns (r: Result<Object, DecodeError>)
    ensures r == DecodeBulletinHeader(payload)
  {
    var reader := new Reader(payload);
    var sequence :- reader.U32();
    var createdAt :- reader.U32();
    var author :- reader.Callsign();
    var title :- reader.TextField(1, MAX_TITLE);
    if !reader.Finished() {
      return Err(PayloadLength);
    }
    if sequence == 0 || createdAt == 0 {
      return Err(InvalidField);
    }
    r := Ok(BulletinHeader(sequence, createdAt, author, title));
  }

  method ReadBulletin(payload: Bytes) returns (r: Result<Object, DecodeError>)
    ensures r == DecodeBulletin(payload)
  {
    var reader := new Reader(payload);
    var sequence :- reader.U32();
    var createdAt :- reader.U32();
    var author :- reader.Callsign();
    var title :- reader.TextField(1, MAX_TITLE);
    var body :- reader.TextField(1, MAX_BULLETIN_BODY);
    if !reader.Finished() {
      return Err(PayloadLength);
    }
    if sequence == 0 || createdAt == 0 {
      return Err(InvalidField);
    }
    r := Ok(Bulletin(sequence, createdAt, author, title, body));
  }

  method ReadError(payload: Bytes) returns (r: Result<Object, DecodeError>)
    ensures r == DecodeErrorPayload(payload)
  {
    var reader := new Reader(payload);
    var operation :- reader.U8();
    var code :- reader.U8();
    var detail :- reader.TextField(0, MAX_DETAIL);
    if !reader.Finished() {
      return Err(PayloadLength);
    }
    if operation != 0 && OperationOf(operation).None? {
      return Err(InvalidField);
    }
    var errorCode := ErrorCodeOf(code);
    if errorCode.None? {
      return Err(InvalidField);
    }
    r := Ok(Error(OperationOf(operation), errorCode.value, detail));
  }
}
