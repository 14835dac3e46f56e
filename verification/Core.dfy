// The server core: sends with their listener rounds, and request handling.
module Core {
  import opened Prelude
  import opened Text
  import C = Codec
  import M = Mailbox

  const CAPABILITIES: nat := 15

  datatype BulletinRow = BulletinRow(sequence: nat, createdAt: int, author: Bytes, title: Bytes, body: Bytes)

  // The bulletin tables; storing bulletins is not part of this model. `rows`
  // is in sequence order.
  datatype Board = Board(high: nat, rows: seq<BulletinRow>)

  // `rounds` lists the event of every round in which the listeners ran.
  datatype State = State(tables: M.Tables, rounds: seq<C.Object>)

  // ------------------------------------------------------------------- sends

  datatype SendError = Invalid | Store(reason: M.StoreError)

  datatype Keying = Unkeyed | Keyed(key: string, requestHash: string)

  datatype Sent = Sent(state: State, result: Result<M.Accepted, SendError>)

  // The MESSAGE object that announces a stored row.
  function Announce(t: M.Tables, m: M.Row): Result<C.Object, M.StoreError> {
    var number :- M.ConversationSequence(t, m);
    Ok(C.Message(m.sequence, number, m.createdAt, m.author, m.recipient, m.body))
  }

  predicate ValidSend(author: Bytes, recipient: Bytes, body: Bytes, createdAt: int) {
    && IsCallsign(author) && IsCallsign(recipient)
    && C.EncodeFrame(C.SendMessage(createdAt, recipient, body), false).Ok?
  }

  function Stored(t: M.Tables, author: Bytes, recipient: Bytes, body: Bytes, createdAt: int, keying: Keying, clock: int)
    : Result<M.Accepted, M.StoreError>
  {
    match keying
    case Unkeyed => M.StoreMessage(t, createdAt, author, recipient, body, clock)
    case Keyed(key, hash) => M.StoreKeyed(t, createdAt, author, recipient, body, key, hash, clock)
  }

  function SendMessage(s: State, author: Bytes, recipient: Bytes, body: Bytes, createdAt: int, keying: Keying, clock: int): Sent {
    if !ValidSend(author, recipient, body, createdAt) then Sent(s, Err(Invalid))
    else match Stored(s.tables, author, recipient, body, createdAt, keying, clock)
      case Err(e) => Sent(s, Err(Store(e)))
      case Ok(a) =>
        if !a.created then Sent(s.(tables := a.tables), Ok(a))
        else match Announce(a.tables, a.message)
          case Err(e) => Sent(s.(tables := a.tables), Err(Store(e)))
          case Ok(event) => Sent(State(a.tables, s.rounds + [event]), Ok(a))
  }

  // ------------------------------------------------------- error responses

  datatype Wording =
    | NotARequest | NoMailboxRoom | DamagedMailbox | BadUser | BadMessageCursor | BadBulletinCursor
    | NoBulletin | BadCallsign | NoMessage

  function Words(w: Wording): string {
    match w
    case NotARequest => "operation is not a client request"
    case NoMailboxRoom => "message storage exhausted"
    case DamagedMailbox => "message storage integrity failure"
    case BadUser => "invalid authenticated callsign"
    case BadMessageCursor => "invalid message cursor"
    case BadBulletinCursor => "invalid bulletin cursor"
    case NoBulletin => "bulletin not found"
    case BadCallsign => "invalid callsign"
    case NoMessage => "message not found"
  }

  predicate Plain(s: string) {
    forall i :: 0 <= i < |s| ==> ' ' <= s[i] <= '~'
  }

  type PlainText = s: string | Plain(s)

  function Ascii(s: PlainText): Bytes {
    seq(|s|, i requires 0 <= i < |s| => s[i] as int)
  }

  lemma WordsFit(w: Wording)
    ensures Plain(Words(w)) && |Words(w)| <= C.MAX_DETAIL
  {
    if w.NotARequest? {
      LongestWordsFit();
    } else if w.NoMailboxRoom? || w.DamagedMailbox? {
      FirstWordsFit(w);
    } else if w.BadUser? || w.BadMessageCursor? || w.BadBulletinCursor? {
      MiddleWordsFit(w);
    } else {
      LastWordsFit(w);
    }
  }

  lemma LongestWordsFit()
    ensures Plain(Words(NotARequest)) && |Words(NotARequest)| <= C.MAX_DETAIL
  {
  }

  lemma FirstWordsFit(w: Wording)
    requires w.NoMailboxRoom? || w.DamagedMailbox?
    ensures Plain(Words(w)) && |Words(w)| <= C.MAX_DETAIL
  {
  }

  lemma MiddleWordsFit(w: Wording)
    requires w.BadUser? || w.BadMessageCursor? || w.BadBulletinCursor?
    ensures Plain(Words(w)) && |Words(w)| <= C.MAX_DETAIL
  {
  }

  lemma LastWordsFit(w: Wording)
    requires w.NoBulletin? || w.BadCallsign? || w.NoMessage?
    ensures Plain(Words(w)) && |Words(w)| <= C.MAX_DETAIL
  {
  }

  function Refusal(op: C.Operation, code: C.ErrorCode, w: Wording): C.Object {
    WordsFit(w);
    C.Error(Some(op), code, Ascii(Words(w)))
  }

  // The operation a rejected frame is blamed on, when its header names one.
  function BlamedOperation(frame: Bytes, e: C.DecodeError): Option<C.Operation>
    requires |frame| >= 2
  {
    if e == C.UnsupportedVersion || e == C.UnknownOperation || frame[0] != C.PROTOCOL_VERSION then None
    else C.OperationOf(frame[1])
  }

  function BlamedCode(frame: Bytes, e: C.DecodeError): C.ErrorCode
    requires |frame| >= 3
  {
    match e
    case UnsupportedVersion => C.UnsupportedVersionCode
    case UnknownOperation => C.UnknownOperationCode
    case InvalidField => if frame[2] != 0 then C.InvalidFrame else C.InvalidFieldCode
    case PayloadLength => C.InvalidFrame
  }

  // `text` is the exception's message.
  function DecodeErrorResponse(frame: Bytes, e: C.DecodeError, text: PlainText): Option<C.Object> {
    if |frame| < C.HEADER_SIZE then None
    else Some(C.Error(BlamedOperation(frame, e), BlamedCode(frame, e), Ascii(M.Take(text, C.MAX_DETAIL))))
  }

  // --------------------------------------------------------------- handlers

  function AnnounceAll(t: M.Tables, rows: seq<M.Row>): Result<seq<C.Object>, M.StoreError> {
    if rows == [] then Ok([])
    else
      var before :- AnnounceAll(t, rows[..|rows| - 1]);
      var last :- Announce(t, rows[|rows| - 1]);
      Ok(before + [last])
  }

  // A handler either answers or lets a store exception escape.
  function HandleGetNewMessages(t: M.Tables, callsign: Bytes, since: int, max: int): Result<seq<C.Object>, M.StoreError> {
    if !IsCallsign(callsign) then Ok([Refusal(C.OpGetNewMessages, C.Unauthorized, BadUser)])
    else match M.GetNewMessages(t, callsign, since, max)
      case Err(CursorAhead) => Ok([Refusal(C.OpGetNewMessages, C.InvalidCursor, BadMessageCursor)])
      case Err(Integrity) => Ok([Refusal(C.OpGetNewMessages, C.InternalError, DamagedMailbox)])
      case Err(e) => Err(e)
      case Ok(page) =>
        var messages :- AnnounceAll(t, page.messages);
        Ok(messages + [C.End(C.OpGetNewMessages, |page.messages|, page.nextSince, page.hasMore)])
  }

  function NewerBulletins(rows: seq<BulletinRow>, since: int): seq<BulletinRow> {
    if rows == [] then []
    else
      NewerBulletins(rows[..|rows| - 1], since)
      + (if rows[|rows| - 1].sequence > since then [rows[|rows| - 1]] else [])
  }

  function HeaderOf(b: BulletinRow): C.Object {
    C.BulletinHeader(b.sequence, b.createdAt, b.author, b.title)
  }

  function Headers(rows: seq<BulletinRow>): seq<C.Object> {
    seq(|rows|, i requires 0 <= i < |rows| => HeaderOf(rows[i]))
  }

  function HandleGetNewBulletins(board: Board, callsign: Bytes, since: int, max: int): Result<seq<C.Object>, M.StoreError> {
    if !IsCallsign(callsign) then Ok([Refusal(C.OpGetNewBulletins, C.Unauthorized, BadUser)])
    else if !M.IsU32(since) || !(1 <= max <= M.MAX_LIMIT) then Err(M.BadValue)
    else if since > board.high then Ok([Refusal(C.OpGetNewBulletins, C.InvalidCursor, BadBulletinCursor)])
    else
      var rows := M.Take(NewerBulletins(board.rows, since), max + 1);
      var page := M.Take(rows, max);
      Ok(Headers(page)
         + [C.End(C.OpGetNewBulletins, |page|, if page == [] then since else page[|page| - 1].sequence, |rows| > max)])
  }

  function FindBulletin(rows: seq<BulletinRow>, sequence: int): (r: Option<BulletinRow>)
    ensures r.Some? ==> r.value in rows && r.value.sequence == sequence
    ensures r.None? ==> forall b :: b in rows ==> b.sequence != sequence
  {
    if rows == [] then None
    else if rows[|rows| - 1].sequence == sequence then Some(rows[|rows| - 1])
    else FindBulletin(rows[..|rows| - 1], sequence)
  }

  function HandleGetBulletin(board: Board, callsign: Bytes, sequence: int): Result<seq<C.Object>, M.StoreError> {
    if !IsCallsign(callsign) then Ok([Refusal(C.OpGetBulletin, C.Unauthorized, BadUser)])
    else if !M.IsU32(sequence) || sequence == 0 then Err(M.BadValue)
    else match FindBulletin(board.rows, sequence)
      case None => Ok([Refusal(C.OpGetBulletin, C.NotFound, NoBulletin)])
      case Some(b) => Ok([C.Bulletin(b.sequence, b.createdAt, b.author, b.title, b.body)])
  }

  function HandleGetMessage(t: M.Tables, callsign: Bytes, peer: Bytes, number: int): seq<C.Object> {
    if !IsCallsign(callsign) || !IsCallsign(peer) then [Refusal(C.OpGetMessage, C.Unauthorized, BadCallsign)]
    else match M.GetConversationMessage(t, callsign, peer, number)
      case Err(_) => [Refusal(C.OpGetMessage, C.InternalError, DamagedMailbox)]
      case Ok(None) => [Refusal(C.OpGetMessage, C.NotFound, NoMessage)]
      case Ok(Some(m)) => [C.Message(m.sequence, number, m.createdAt, m.author, m.recipient, m.body)]
  }

  function SendAnswer(callsign: Bytes, sent: Sent): Result<seq<C.Object>, M.StoreError> {
    if !IsCallsign(callsign) then Ok([Refusal(C.OpSendMessage, C.Unauthorized, BadUser)])
    else match sent.result
      case Ok(_) => Ok([C.Stored])
      case Err(Store(Exhausted)) => Ok([Refusal(C.OpSendMessage, C.Busy, NoMailboxRoom)])
      case Err(Store(Integrity)) => Ok([Refusal(C.OpSendMessage, C.InternalError, DamagedMailbox)])
      case Err(Store(e)) => Err(e)
      case Err(Invalid) => Err(M.BadValue)
  }

  datatype Dispatched = Dispatched(state: State, answer: Result<seq<C.Object>, M.StoreError>)

  function Dispatch(s: State, board: Board, callsign: Bytes, request: C.Object, clock: int): Dispatched {
    match request
    case SendMessage(createdAt, recipient, body) =>
      if !IsCallsign(callsign) then Dispatched(s, SendAnswer(callsign, Sent(s, Err(Invalid))))
      else
        var sent := SendMessage(s, callsign, recipient, body, createdAt, Unkeyed, clock);
        Dispatched(sent.state, SendAnswer(callsign, sent))
    case GetNewMessages(since, max) => Dispatched(s, HandleGetNewMessages(s.tables, callsign, since, max))
    case GetNewBulletins(since, max) => Dispatched(s, HandleGetNewBulletins(board, callsign, since, max))
    case GetBulletin(sequence) => Dispatched(s, HandleGetBulletin(board, callsign, sequence))
    case GetCapabilities => Dispatched(s, Ok([C.Capabilities(C.PROTOCOL_VERSION, CAPABILITIES)]))
    case GetMessage(peer, number) => Dispatched(s, Ok(HandleGetMessage(s.tables, callsign, peer, number)))
    case _ => Dispatched(s, Ok([Refusal(C.OperationFor(request), C.UnknownOperationCode, NotARequest)]))
  }

  // ------------------------------------------------------------ handle_frame

  datatype Raised = FromStore(error: M.StoreError) | FromEncoder(encoding: C.EncodeError)

  datatype Handled = Handled(state: State, frames: Result<seq<Bytes>, Raised>)

  function EncodeAll(objects: seq<C.Object>): Result<seq<Bytes>, C.EncodeError> {
    if objects == [] then Ok([])
    else
      var before :- EncodeAll(objects[..|objects| - 1]);
      var last :- C.EncodeFrame(objects[|objects| - 1], false);
      Ok(before + [last])
  }

  function Encoded(s: State, answer: Result<seq<C.Object>, M.StoreError>): Handled {
    match answer
    case Err(e) => Handled(s, Err(FromStore(e)))
    case Ok(objects) =>
      match EncodeAll(objects)
      case Err(e) => Handled(s, Err(FromEncoder(e)))
      case Ok(frames) => Handled(s, Ok(frames))
  }

  function Answered(s: State, board: Board, callsign: Bytes, frame: Bytes, clock: int, text: PlainText): Dispatched {
    match C.DecodeFrame(frame)
    case Ok(request) => Dispatch(s, board, callsign, request, clock)
    case Err(e) =>
      (match DecodeErrorResponse(frame, e, text)
       case None => Dispatched(s, Ok([]))
       case Some(response) => Dispatched(s, Ok([response])))
  }

  function HandleFrame(s: State, board: Board, callsign: Bytes, frame: Bytes, clock: int, text: PlainText): Handled {
    var d := Answered(s, board, callsign, frame, clock, text);
    Encoded(d.state, d.answer)
  }

  // -------------------------------------------------------------- imperative

  class ServerCore {
    const store: M.MessageStore
    var rounds: seq<C.Object>

    function Now(): State
      reads this, store
    {
      State(store.Snapshot(), rounds)
    }

    constructor (store: M.MessageStore)
      ensures this.store == store && rounds == []
    {
      this.store := store;
      this.rounds := [];
    }

    method Send(author: Bytes, recipient: Bytes, body: Bytes, createdAt: int, keying: Keying, clock: int)
      returns (r: Result<(M.Row, bool), SendError>)
      modifies this, store
      ensures var sent := SendMessage(old(Now()), author, recipient, body, createdAt, keying, clock);
              && Now() == sent.state
              && r == (match sent.result
                       case Ok(a) => Ok((a.message, a.created))
                       case Err(e) => Err(e))
    {
      if !IsCallsign(author) || !IsCallsign(recipient) || C.EncodeFrame(C.SendMessage(createdAt, recipient, body), false).Err? {
        return Err(Invalid);
      }
      var row: M.Row;
      var created := true;
      match keying {
        case Unkeyed =>
          var stored := store.Store(createdAt, author, recipient, body, clock);
          if stored.Err? {
            return Err(SendError.Store(stored.error));
          }
          row := stored.value;
        case Keyed(key, hash) =>
          var stored := store.StoreOnce(createdAt, author, recipient, body, key, hash, clock);
          if stored.Err? {
            return Err(SendError.Store(stored.error));
          }
          row, created := stored.value.0, stored.value.1;
      }
      if created {
        var event := Announce(store.Snapshot(), row);
        if event.Err? {
          return Err(SendError.Store(event.error));
        }
        rounds := rounds + [event.value];
      }
      r := Ok((row, created));
    }

    method Handle(board: Board, callsign: Bytes, frame: Bytes, clock: int, text: PlainText)
      returns (r: Result<seq<Bytes>, Raised>)
      modifies this, store
      ensures var h := HandleFrame(old(Now()), board, callsign, frame, clock, text);
              Now() == h.state && r == h.frames
    {
      var request := C.DecodeFrame(frame);
      var answer: Result<seq<C.Object>, M.StoreError>;
      if request.Err? {
        var response := DecodeErrorResponse(frame, request.error, text);
        answer := Ok(if response.None? then [] else [response.value]);
      } else if request.value.SendMessage? && IsCallsign(callsign) {
        var sent := Send(callsign, request.value.recipient, request.value.body, request.value.createdAt, Unkeyed, clock);
        answer := match sent
          case Ok(_) => Ok([C.Stored])
          case Err(Store(Exhausted)) => Ok([Refusal(C.OpSendMessage, C.Busy, NoMailboxRoom)])
          case Err(Store(Integrity)) => Ok([Refusal(C.OpSendMessage, C.InternalError, DamagedMailbox)])
          case Err(Store(e)) => Err(e)
          case Err(Invalid) => Err(M.BadValue);
      } else {
        answer := Dispatch(Now(), board, callsign, request.value, clock).answer;
      }
      r := Encoded(Now(), answer).frames;
    }
  }
}
