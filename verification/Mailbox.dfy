// The message tables and the transactions over them.
module Mailbox {
  import opened Prelude

  const MAX_LIMIT: nat := 20
  const MAX_CLOCK: nat := 0x7FFF_FFFF_FFFF_FFFF

  type Name = Bytes

  datatype Row = Row(
    recipient: Name,
    sequence: nat,
    apiSequence: nat,
    createdAt: int,
    acceptedAt: int,
    author: Name,
    body: Bytes)

  datatype SendKey = SendKey(author: Name, key: string)

  datatype Keyed = Keyed(requestHash: string, recipient: Name, sequence: nat)

  datatype Status = Pending | Delivered | Failed

  datatype DeliveryKey = DeliveryKey(recipient: Name, sequence: nat, transport: string)

  datatype Delivery = Delivery(status: Status, deliveredAt: Option<int>)

  // `messages` lists the rows in the order they were inserted.
  datatype Tables = Tables(
    mailboxes: map<Name, nat>,
    apiHigh: nat,
    messages: seq<Row>,
    keyed: map<SendKey, Keyed>,
    deliveries: map<DeliveryKey, Delivery>)

  const EMPTY: Tables := Tables(map[], 0, [], map[], map[])

  datatype StoreError = BadValue | Exhausted | KeyConflict | CursorAhead | Integrity

  predicate IsU32(v: int) {
    0 <= v <= MAX_U32
  }

  predicate IsClock(v: int) {
    0 <= v <= MAX_CLOCK
  }

  function High(t: Tables, recipient: Name): nat {
    if recipient in t.mailboxes then t.mailboxes[recipient] else 0
  }

  // ----------------------------------------------------------------- queries

  datatype Query =
    | Newer(recipient: Name, since: int)
    | Visible(callsign: Name, after: int, peer: Option<Name>)
    | Incoming(recipient: Name, author: Name)

  predicate Matches(q: Query, m: Row) {
    match q
    case Newer(recipient, since) => m.recipient == recipient && m.sequence > since
    case Visible(callsign, after, peer) =>
      && (m.author == callsign || m.recipient == callsign) && m.apiSequence > after
      && (peer.Some? ==>
            || (m.author == callsign && m.recipient == peer.value)
            || (m.author == peer.value && m.recipient == callsign))
    case Incoming(recipient, author) => m.recipient == recipient && m.author == author
  }

  // The ORDER BY column of a query.
  function SortKey(q: Query, m: Row): nat {
    if q.Visible? then m.apiSequence else m.sequence
  }

  // The matching rows among the first n, in table order.
  function Matching(rows: seq<Row>, q: Query, n: nat): (r: seq<Row>)
    requires n <= |rows|
    ensures |r| <= n
    ensures forall m :: m in r ==> m in rows && Matches(q, m)
  {
    if n == 0 then []
    else Matching(rows, q, n - 1) + (if Matches(q, rows[n - 1]) then [rows[n - 1]] else [])
  }

  function InsertSorted(q: Query, sorted: seq<Row>, m: Row): seq<Row> {
    if sorted == [] || SortKey(q, sorted[|sorted| - 1]) <= SortKey(q, m) then sorted + [m]
    else InsertSorted(q, sorted[..|sorted| - 1], m) + [sorted[|sorted| - 1]]
  }

  function OrderBy(q: Query, rows: seq<Row>): seq<Row> {
    if rows == [] then [] else InsertSorted(q, OrderBy(q, rows[..|rows| - 1]), rows[|rows| - 1])
  }

  function Take<T>(s: seq<T>, n: nat): seq<T> {
    if |s| <= n then s else s[..n]
  }

  // SELECT ... WHERE q ORDER BY ... LIMIT n.
  function Select(t: Tables, q: Query, limit: nat): seq<Row> {
    Take(OrderBy(q, Matching(t.messages, q, |t.messages|)), limit)
  }

  datatype Page = Page(messages: seq<Row>, nextSince: int, hasMore: bool)

  function MaxSequence(t: Tables, recipient: Name, n: nat): nat
    requires n <= |t.messages|
  {
    if n == 0 then 0
    else
      var before := MaxSequence(t, recipient, n - 1);
      var m := t.messages[n - 1];
      if m.recipient == recipient && m.sequence > before then m.sequence else before
  }

  // The stored state the retrieval transaction refuses to read from.
  predicate Damaged(t: Tables, recipient: Name) {
    var maximum := MaxSequence(t, recipient, |t.messages|);
    (recipient !in t.mailboxes && maximum > 0) || High(t, recipient) > MAX_U32 || High(t, recipient) < maximum
  }

  function GetNewMessages(t: Tables, callsign: Name, since: int, limit: int): Result<Page, StoreError> {
    if !IsU32(since) || !(1 <= limit <= MAX_LIMIT) then Err(BadValue)
    else if Damaged(t, callsign) then Err(Integrity)
    else if since > High(t, callsign) then Err(CursorAhead)
    else
      var rows := Select(t, Newer(callsign, since), limit + 1);
      var messages := Take(rows, limit);
      Ok(Page(messages, if messages == [] then since else messages[|messages| - 1].sequence, |rows| > limit))
  }

  datatype Listing = Listing(messages: seq<Row>, more: bool)

  function ApiList(t: Tables, callsign: Name, after: int, limit: nat, peer: Option<Name>): Listing {
    var rows := Select(t, Visible(callsign, after, peer), limit + 1);
    Listing(Take(rows, limit), |rows| > limit)
  }

  function GetMessage(t: Tables, recipient: Name, sequence: nat): Option<Row> {
    FindRow(t.messages, recipient, sequence)
  }

  function FindRow(rows: seq<Row>, recipient: Name, sequence: nat): (r: Option<Row>)
    ensures r.Some? ==> r.value in rows && r.value.recipient == recipient && r.value.sequence == sequence
    ensures r.None? ==> forall m :: m in rows ==> !(m.recipient == recipient && m.sequence == sequence)
  {
    if rows == [] then None
    else
      var m := rows[|rows| - 1];
      if m.recipient == recipient && m.sequence == sequence then Some(m)
      else FindRow(rows[..|rows| - 1], recipient, sequence)
  }

  // COUNT(*) of the conversation's rows up to a mailbox sequence.
  function CountUpTo(rows: seq<Row>, recipient: Name, author: Name, sequence: nat, n: nat): nat
    requires n <= |rows|
  {
    if n == 0 then 0
    else
      var m := rows[n - 1];
      CountUpTo(rows, recipient, author, sequence, n - 1)
      + (if m.recipient == recipient && m.author == author && m.sequence <= sequence then 1 else 0)
  }

  function ConversationSequence(t: Tables, m: Row): Result<nat, StoreError> {
    var count := CountUpTo(t.messages, m.recipient, m.author, m.sequence, |t.messages|);
    if count == 0 || count > MAX_U32 then Err(Integrity) else Ok(count)
  }

  function GetConversationMessage(t: Tables, recipient: Name, author: Name, number: int): Result<Option<Row>, StoreError> {
    if !IsU32(number) || number == 0 then Err(BadValue)
    else
      var rows := OrderBy(Incoming(recipient, author), Matching(t.messages, Incoming(recipient, author), |t.messages|));
      Ok(if number <= |rows| then Some(rows[number - 1]) else None)
  }

  // ------------------------------------------------------------ transactions

  // The constraints the messages table checks on INSERT.
  predicate Insertable(t: Tables, m: Row) {
    && 1 <= m.sequence <= MAX_U32 && m.apiSequence > 0 && IsU32(m.createdAt) && m.acceptedAt >= 0
    && forall x :: x in t.messages ==>
         x.apiSequence != m.apiSequence && !(x.recipient == m.recipient && x.sequence == m.sequence)
  }

  function NewRow(t: Tables, createdAt: int, author: Name, recipient: Name, body: Bytes, clock: int): Row {
    Row(recipient, High(t, recipient) + 1, t.apiHigh + 1, createdAt, clock, author, body)
  }

  function Inserted(t: Tables, m: Row): Tables {
    t.(mailboxes := t.mailboxes[m.recipient := m.sequence], apiHigh := m.apiSequence, messages := t.messages + [m])
  }

  datatype Accepted = Accepted(tables: Tables, message: Row, created: bool)

  function StoreMessage(t: Tables, createdAt: int, author: Name, recipient: Name, body: Bytes, clock: int)
    : Result<Accepted, StoreError>
  {
    var m := NewRow(t, createdAt, author, recipient, body, clock);
    if !IsU32(createdAt) then Err(BadValue)
    else if High(t, recipient) > MAX_U32 then Err(Integrity)
    else if High(t, recipient) == MAX_U32 then Err(Exhausted)
    else if !IsClock(clock) then Err(BadValue)
    else if !Insertable(t, m) then Err(Integrity)
    else Ok(Accepted(Inserted(t, m), m, true))
  }

  function StoreKeyed(t: Tables, createdAt: int, author: Name, recipient: Name, body: Bytes,
                      key: string, requestHash: string, clock: int): Result<Accepted, StoreError>
  {
    var sendKey := SendKey(author, key);
    var m := NewRow(t, createdAt, author, recipient, body, clock);
    if sendKey in t.keyed then
      var earlier := t.keyed[sendKey];
      if earlier.requestHash != requestHash then Err(KeyConflict)
      else match GetMessage(t, earlier.recipient, earlier.sequence)
        case None => Err(Integrity)
        case Some(original) => Ok(Accepted(t, original, false))
    else if m.sequence > MAX_U32 then Err(Exhausted)
    else if !IsClock(clock) then Err(BadValue)
    else if !Insertable(t, m) then Err(Integrity)
    else
      Ok(Accepted(Inserted(t, m).(keyed := t.keyed[sendKey := Keyed(requestHash, recipient, m.sequence)]), m, true))
  }

  // A delivered row never changes again, and a failed one is not delivered
  // before it has been pending once more.
  predicate MayChange(t: Tables, key: DeliveryKey, status: Status) {
    key in t.deliveries ==>
      t.deliveries[key].status != Delivered && !(t.deliveries[key].status == Failed && status == Delivered)
  }

  datatype Marked = Marked(tables: Tables, changed: bool)

  // A new delivery must name a stored message (the table's foreign key).
  function SetDelivery(t: Tables, key: DeliveryKey, status: Status, deliveredAt: Option<int>): Result<Marked, StoreError> {
    if deliveredAt.Some? && deliveredAt.value < 0 then Err(Integrity)
    else if key !in t.deliveries && GetMessage(t, key.recipient, key.sequence).None? then Err(Integrity)
    else if !MayChange(t, key, status) then Ok(Marked(t, false))
    else Ok(Marked(t.(deliveries := t.deliveries[key := Delivery(status, deliveredAt)]), true))
  }

  // ------------------------------------------------------------- imperative

  // The store: each method is one BEGIN IMMEDIATE transaction. A failure part
  // way through restores what BEGIN saw.
  class MessageStore {
    var mailboxes: map<Name, nat>
    var apiHigh: nat
    var messages: seq<Row>
    var keyed: map<SendKey, Keyed>
    var deliveries: map<DeliveryKey, Delivery>

    function Snapshot(): Tables
      reads this
    {
      Tables(mailboxes, apiHigh, messages, keyed, deliveries)
    }

    constructor ()
      ensures Snapshot() == EMPTY
    {
      mailboxes, apiHigh, messages, keyed, deliveries := map[], 0, [], map[], map[];
    }

    method Rollback(t: Tables)
      modifies this
      ensures Snapshot() == t
    {
      mailboxes, apiHigh, messages, keyed, deliveries := t.mailboxes, t.apiHigh, t.messages, t.keyed, t.deliveries;
    }

    method Store(createdAt: int, author: Name, recipient: Name, body: Bytes, clock: int)
      returns (r: Result<Row, StoreError>)
      modifies this
      ensures match StoreMessage(old(Snapshot()), createdAt, author, recipient, body, clock)
              case Ok(a) => r == Ok(a.message) && Snapshot() == a.tables
              case Err(e) => r == Err(e) && Snapshot() == old(Snapshot())
    {
      if !IsU32(createdAt) {
        return Err(BadValue);
      }
      var begin := Snapshot();
      var last := if recipient in mailboxes then mailboxes[recipient] else 0;
      if last > MAX_U32 {
        return Err(Integrity);
      }
      if last == MAX_U32 {
        return Err(Exhausted);
      }
      var sequence := last + 1;
      if !IsClock(clock) {
        return Err(BadValue);
      }
      apiHigh := apiHigh + 1;
      mailboxes := mailboxes[recipient := sequence];
      var row := Row(recipient, sequence, apiHigh, createdAt, clock, author, body);
      if !Insertable(Snapshot(), row) {
        Rollback(begin);
        return Err(Integrity);
      }
      messages := messages + [row];
      r := Ok(row);
    }

    method StoreOnce(createdAt: int, author: Name, recipient: Name, body: Bytes,
                      key: string, requestHash: string, clock: int)
      returns (r: Result<(Row, bool), StoreError>)
      modifies this
      ensures match StoreKeyed(old(Snapshot()), createdAt, author, recipient, body, key, requestHash, clock)
              case Ok(a) => r == Ok((a.message, a.created)) && Snapshot() == a.tables
              case Err(e) => r == Err(e) && Snapshot() == old(Snapshot())
    {
      var begin := Snapshot();
      var sendKey := SendKey(author, key);
      if sendKey in keyed {
        var earlier := keyed[sendKey];
        if earlier.requestHash != requestHash {
          return Err(KeyConflict);
        }
        var original := GetMessage(begin, earlier.recipient, earlier.sequence);
        return if original.None? then Err(Integrity) else Ok((original.value, false));
      }
      var sequence := (if recipient in mailboxes then mailboxes[recipient] else 0) + 1;
      if sequence > MAX_U32 {
        return Err(Exhausted);
      }
      var apiSequence := apiHigh + 1;
      if !IsClock(clock) {
        return Err(BadValue);
      }
      mailboxes := mailboxes[recipient := sequence];
      apiHigh := apiSequence;
      var row := Row(recipient, sequence, apiSequence, createdAt, clock, author, body);
      if !Insertable(Snapshot(), row) {
        Rollback(begin);
        return Err(Integrity);
      }
      messages := messages + [row];
      keyed := keyed[sendKey := Keyed(requestHash, recipient, sequence)];
      r := Ok((row, true));
    }

    method MarkDelivery(recipient: Name, sequence: nat, transport: string, status: Status, deliveredAt: Option<int>)
      returns (r: Result<bool, StoreError>)
      modifies this`deliveries
      ensures match SetDelivery(old(Snapshot()), DeliveryKey(recipient, sequence, transport), status, deliveredAt)
              case Ok(m) => r == Ok(m.changed) && Snapshot() == m.tables
              case Err(e) => r == Err(e) && Snapshot() == old(Snapshot())
    {
      var key := DeliveryKey(recipient, sequence, transport);
      if deliveredAt.Some? && deliveredAt.value < 0 {
        return Err(Integrity);
      }
      if key !in deliveries && GetMessage(Snapshot(), recipient, sequence).None? {
        return Err(Integrity);
      }
      var changed := MayChange(Snapshot(), key, status);
      if changed {
        deliveries := deliveries[key := Delivery(status, deliveredAt)];
      }
      r := Ok(changed);
    }
  }
}
