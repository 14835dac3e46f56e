// What every run of the store keeps, and what its queries return.
module MailboxProofs {
  import opened Prelude
  import opened Mailbox

  // How many of the first n messages went to a mailbox.
  function Count(rows: seq<Row>, recipient: Name, n: nat): (c: nat)
    requires n <= |rows|
    ensures c <= n
  {
    if n == 0 then 0 else Count(rows, recipient, n - 1) + (if rows[n - 1].recipient == recipient then 1 else 0)
  }

  // Every mailbox's sequences are exactly 1..high-water in insertion order, and
  // the API sequences are exactly 1..API high-water.
  ghost predicate Inv(t: Tables) {
    && t.apiHigh == |t.messages|
    && (forall i :: 0 <= i < |t.messages| ==>
          && t.messages[i].apiSequence == i + 1
          && t.messages[i].sequence == Count(t.messages, t.messages[i].recipient, i) + 1
          && t.messages[i].sequence <= MAX_U32
          && IsU32(t.messages[i].createdAt))
    && (forall r :: High(t, r) == Count(t.messages, r, |t.messages|))
    && (forall r :: High(t, r) <= MAX_U32)
    && (forall r :: r in t.mailboxes ==> t.mailboxes[r] > 0)
    && (forall k :: k in t.keyed ==> KeyedRow(t, k))
  }

  ghost predicate KeyedRow(t: Tables, k: SendKey)
    requires k in t.keyed
  {
    exists i :: 0 <= i < |t.messages| && t.messages[i].recipient == t.keyed[k].recipient
             && t.messages[i].sequence == t.keyed[k].sequence && t.messages[i].author == k.author
  }

  // Later tables: the same messages, possibly followed by more.
  ghost predicate Extends(a: Tables, b: Tables) {
    a.messages <= b.messages
  }

  lemma RowFact(t: Tables, i: nat)
    requires Inv(t) && i < |t.messages|
    ensures t.messages[i].apiSequence == i + 1
    ensures t.messages[i].sequence == Count(t.messages, t.messages[i].recipient, i) + 1
  {
  }

  lemma {:induction false} CountOfPrefix(a: seq<Row>, b: seq<Row>, r: Name, n: nat)
    requires a <= b && n <= |a|
    ensures Count(a, r, n) == Count(b, r, n)
  {
    if n == 0 {
    } else {
      CountOfPrefix(a, b, r, n - 1);
    }
  }

  lemma {:induction false} CountGrows(rows: seq<Row>, r: Name, i: nat, j: nat)
    requires i <= j <= |rows|
    ensures Count(rows, r, i) <= Count(rows, r, j)
    ensures i < j && rows[i].recipient == r ==> Count(rows, r, i) < Count(rows, r, j)
    decreases j - i
  {
    if i == j {
    } else {
      CountGrows(rows, r, i, j - 1);
    }
  }

  // Within one mailbox, earlier rows have smaller sequences.
  lemma SequencesIncrease(t: Tables, i: nat, j: nat)
    requires Inv(t) && i < j < |t.messages| && t.messages[i].recipient == t.messages[j].recipient
    ensures t.messages[i].sequence < t.messages[j].sequence
  {
    hide Inv;
    RowFact(t, i);
    RowFact(t, j);
    CountGrows(t.messages, t.messages[i].recipient, i, j);
  }

  lemma SequenceWithinHigh(t: Tables, i: nat)
    requires Inv(t) && i < |t.messages|
    ensures 1 <= t.messages[i].sequence <= High(t, t.messages[i].recipient)
  {
    CountGrows(t.messages, t.messages[i].recipient, i, |t.messages|);
  }

  lemma RowsAreUnique(t: Tables, i: nat, j: nat)
    requires Inv(t) && i < |t.messages| && j < |t.messages|
    requires t.messages[i].recipient == t.messages[j].recipient && t.messages[i].sequence == t.messages[j].sequence
    ensures i == j
  {
    if i < j {
      SequencesIncrease(t, i, j);
    } else if j < i {
      SequencesIncrease(t, j, i);
    }
  }

  // ---------------------------------------------------------- the invariant

  lemma EmptyInv()
    ensures Inv(EMPTY)
  {
  }

  lemma NewRowInsertable(t: Tables, createdAt: int, author: Name, recipient: Name, body: Bytes, clock: int)
    requires Inv(t) && High(t, recipient) < MAX_U32 && IsU32(createdAt) && IsClock(clock)
    ensures Insertable(t, NewRow(t, createdAt, author, recipient, body, clock))
  {
    forall x | x in t.messages
      ensures x.apiSequence <= |t.messages| && (x.recipient == recipient ==> x.sequence <= High(t, recipient))
    {
      var i :| 0 <= i < |t.messages| && t.messages[i] == x;
      SequenceWithinHigh(t, i);
    }
  }

  lemma InsertKeepsInv(t: Tables, m: Row)
    requires Inv(t) && m.apiSequence == t.apiHigh + 1 && m.sequence == High(t, m.recipient) + 1 <= MAX_U32
    requires IsU32(m.createdAt)
    ensures Inv(Inserted(t, m)) && Extends(t, Inserted(t, m))
  {
    var u := Inserted(t, m);
    InsertedRows(t, m);
    InsertedHighs(t, m);
    forall k | k in u.keyed
      ensures KeyedRow(u, k)
    {
      InsertedKeyed(t, m, k);
    }
  }

  lemma InsertedKeyed(t: Tables, m: Row, k: SendKey)
    requires Inv(t) && k in t.keyed
    ensures KeyedRow(Inserted(t, m), k)
  {
    assert KeyedRow(t, k);
    var i :| 0 <= i < |t.messages| && t.messages[i].recipient == t.keyed[k].recipient
             && t.messages[i].sequence == t.keyed[k].sequence && t.messages[i].author == k.author;
    var u := Inserted(t, m);
    assert u.messages[i] == t.messages[i];
  }

  lemma InsertedHighs(t: Tables, m: Row)
    requires Inv(t) && m.sequence == High(t, m.recipient) + 1 <= MAX_U32
    ensures var u := Inserted(t, m);
            && (forall r :: High(u, r) == Count(u.messages, r, |u.messages|))
            && (forall r :: High(u, r) <= MAX_U32)
            && (forall r :: r in u.mailboxes ==> u.mailboxes[r] > 0)
  {
    var u := Inserted(t, m);
    forall r
      ensures High(u, r) == Count(u.messages, r, |u.messages|) <= MAX_U32
    {
      InsertedHigh(t, m, r);
    }
  }

  lemma InsertedHigh(t: Tables, m: Row, r: Name)
    requires Inv(t) && m.sequence == High(t, m.recipient) + 1 <= MAX_U32
    ensures High(Inserted(t, m), r) == Count(t.messages + [m], r, |t.messages| + 1) <= MAX_U32
  {
    hide Inv;
    HighIsCount(t, r);
    CountOfPrefix(t.messages, t.messages + [m], r, |t.messages|);
  }

  lemma InsertedRows(t: Tables, m: Row)
    requires Inv(t) && m.apiSequence == t.apiHigh + 1 && m.sequence == High(t, m.recipient) + 1 <= MAX_U32
    requires IsU32(m.createdAt)
    ensures var u := Inserted(t, m);
            forall i :: 0 <= i < |u.messages| ==>
              && u.messages[i].apiSequence == i + 1
              && u.messages[i].sequence == Count(u.messages, u.messages[i].recipient, i) + 1
              && u.messages[i].sequence <= MAX_U32
              && IsU32(u.messages[i].createdAt)
  {
    hide High, Count;
    var rows := t.messages + [m];
    forall i | 0 <= i < |rows|
      ensures rows[i].sequence == Count(rows, rows[i].recipient, i) + 1
    {
      HighIsCount(t, m.recipient);
      CountOfPrefix(t.messages, rows, rows[i].recipient, i);
    }
  }

  // What storing does: fails and changes nothing, or adds exactly one row at
  // the end with the next sequence of its mailbox and the next API sequence.
  lemma StoreKeepsInv(t: Tables, createdAt: int, author: Name, recipient: Name, body: Bytes, clock: int)
    requires Inv(t)
    ensures var r := StoreMessage(t, createdAt, author, recipient, body, clock);
            && (r.Ok? <==> IsU32(createdAt) && High(t, recipient) < MAX_U32 && IsClock(clock))
            && (r.Err? ==> r.error != Integrity)
            && (r.Ok? ==> Inv(r.value.tables) && Extends(t, r.value.tables)
                          && r.value.tables.messages == t.messages + [r.value.message]
                          && r.value.message.sequence == High(t, recipient) + 1)
  {
    if IsU32(createdAt) && High(t, recipient) < MAX_U32 && IsClock(clock) {
      NewRowInsertable(t, createdAt, author, recipient, body, clock);
      InsertKeepsInv(t, NewRow(t, createdAt, author, recipient, body, clock));
    }
  }

  lemma KeyedRowFound(t: Tables, k: SendKey)
    requires Inv(t) && k in t.keyed
    ensures var r := GetMessage(t, t.keyed[k].recipient, t.keyed[k].sequence);
            r.Some? && r.value in t.messages && r.value.author == k.author
  {
    assert KeyedRow(t, k);
    var i :| 0 <= i < |t.messages| && t.messages[i].recipient == t.keyed[k].recipient
             && t.messages[i].sequence == t.keyed[k].sequence && t.messages[i].author == k.author;
    var r := GetMessage(t, t.keyed[k].recipient, t.keyed[k].sequence);
    assert t.messages[i] in t.messages;
    var j :| 0 <= j < |t.messages| && t.messages[j] == r.value;
    RowsAreUnique(t, i, j);
  }

  lemma StoreKeyedKeepsInv(t: Tables, createdAt: int, author: Name, recipient: Name, body: Bytes,
                           key: string, hash: string, clock: int)
    requires Inv(t)
    ensures var r := StoreKeyed(t, createdAt, author, recipient, body, key, hash, clock);
            && (r.Err? && IsU32(createdAt) ==> r.error != Integrity)
            && (r.Ok? ==> Inv(r.value.tables) && Extends(t, r.value.tables) && r.value.message in r.value.tables.messages)
  {
    var k := SendKey(author, key);
    if k in t.keyed {
      KeyedRowFound(t, k);
    } else if IsU32(createdAt) && High(t, recipient) < MAX_U32 && IsClock(clock) {
      var m := NewRow(t, createdAt, author, recipient, body, clock);
      NewRowInsertable(t, createdAt, author, recipient, body, clock);
      InsertKeepsInv(t, m);
      NewKeyKeepsInv(Inserted(t, m), k, Keyed(hash, recipient, m.sequence), |t.messages|);
    }
  }

  lemma NewKeyKeepsInv(t: Tables, k: SendKey, entry: Keyed, i: nat)
    requires Inv(t) && i < |t.messages| && t.messages[i].recipient == entry.recipient
    requires t.messages[i].sequence == entry.sequence && t.messages[i].author == k.author
    ensures Inv(t.(keyed := t.keyed[k := entry]))
  {
    var u := t.(keyed := t.keyed[k := entry]);
    forall x | x in u.keyed
      ensures KeyedRow(u, x)
    {
      if x == k {
        assert u.messages[i].recipient == u.keyed[k].recipient;
      } else {
        assert KeyedRow(t, x);
      }
    }
    assert forall r :: High(u, r) == High(t, r);
  }

  lemma SetDeliveryKeepsInv(t: Tables, key: DeliveryKey, status: Status, at: Option<int>)
    requires Inv(t)
    ensures var r := SetDelivery(t, key, status, at);
            r.Ok? ==> Inv(r.value.tables) && r.value.tables.messages == t.messages && r.value.tables.keyed == t.keyed
  {
    hide GetMessage;
    var r := SetDelivery(t, key, status, at);
    if r.Ok? {
      var u := r.value.tables;
      assert forall r :: High(u, r) == High(t, r);
      forall k | k in u.keyed
        ensures KeyedRow(u, k)
      {
        assert KeyedRow(t, k);
      }
    }
  }

  // Nothing a run can reach is refused as damaged.
  lemma {:induction false} MaxSequenceIsCount(t: Tables, r: Name, n: nat)
    requires Inv(t) && n <= |t.messages|
    ensures MaxSequence(t, r, n) == Count(t.messages, r, n)
  {
    if n == 0 {
    } else {
      MaxSequenceIsCount(t, r, n - 1);
    }
  }

  lemma NeverDamaged(t: Tables, r: Name)
    requires Inv(t)
    ensures !Damaged(t, r)
  {
    MaxSequenceIsCount(t, r, |t.messages|);
  }

  // ---------------------------------------------------------------- ORDER BY

  ghost predicate Sorted(q: Query, rows: seq<Row>) {
    forall i, j :: 0 <= i < j < |rows| ==> SortKey(q, rows[i]) < SortKey(q, rows[j])
  }

  lemma {:induction false} OrderBySorted(q: Query, rows: seq<Row>)
    requires Sorted(q, rows)
    ensures OrderBy(q, rows) == rows
  {
    if rows == [] {
    } else {
      OrderBySorted(q, rows[..|rows| - 1]);
      assert rows == rows[..|rows| - 1] + [rows[|rows| - 1]];
    }
  }

  lemma MatchingStep(rows: seq<Row>, q: Query, n: nat)
    requires 0 < n <= |rows|
    ensures Matching(rows, q, n)
         == if Matches(q, rows[n - 1]) then Matching(rows, q, n - 1) + [rows[n - 1]] else Matching(rows, q, n - 1)
  {
    hide Matches;
  }

  lemma NoMatchYet(rows: seq<Row>, q: Query)
    ensures Matching(rows, q, 0) == []
  {
  }

  // Table order is already the order every query asks for.
  lemma {:induction false} MatchingSorted(t: Tables, q: Query, n: nat)
    requires Inv(t) && n <= |t.messages|
    ensures Sorted(q, Matching(t.messages, q, n))
  {
    hide Inv, Matches, Matching, SortKey;
    if n == 0 {
      NoMatchYet(t.messages, q);
    } else {
      MatchingStep(t.messages, q, n);
      MatchingSorted(t, q, n - 1);
      if Matches(q, t.messages[n - 1]) {
        EarlierKeys(t, q, n - 1);
        SortedAppend(q, Matching(t.messages, q, n - 1), t.messages[n - 1]);
      }
    }
  }

  lemma SortedAppend(q: Query, rows: seq<Row>, m: Row)
    requires Sorted(q, rows) && forall i :: 0 <= i < |rows| ==> SortKey(q, rows[i]) < SortKey(q, m)
    ensures Sorted(q, rows + [m])
  {
    hide SortKey;
  }

  lemma EarlierKeys(t: Tables, q: Query, n: nat)
    requires Inv(t) && n < |t.messages| && Matches(q, t.messages[n])
    ensures var before := Matching(t.messages, q, n);
            forall i :: 0 <= i < |before| ==> SortKey(q, before[i]) < SortKey(q, t.messages[n])
  {
    hide Inv, SortKey, Matches;
    var before := Matching(t.messages, q, n);
    forall i | 0 <= i < |before|
      ensures SortKey(q, before[i]) < SortKey(q, t.messages[n])
    {
      assert before[i] in before;
      EarlierKey(t, q, before[i], n);
    }
  }

  lemma {:induction false} MatchingIsEarlier(rows: seq<Row>, q: Query, n: nat, m: Row) returns (i: nat)
    requires n <= |rows| && m in Matching(rows, q, n)
    ensures i < n && rows[i] == m
  {
    if Matches(q, rows[n - 1]) && m == rows[n - 1] {
      i := n - 1;
    } else {
      i := MatchingIsEarlier(rows, q, n - 1, m);
    }
  }

  lemma EarlierKey(t: Tables, q: Query, m: Row, n: nat)
    requires Inv(t) && n < |t.messages| && m in Matching(t.messages, q, n) && Matches(q, t.messages[n])
    ensures SortKey(q, m) < SortKey(q, t.messages[n])
  {
    hide Inv;
    var i := MatchingIsEarlier(t.messages, q, n, m);
    RowFact(t, i);
    RowFact(t, n);
    if !q.Visible? {
      SequencesIncrease(t, i, n);
    }
  }

  lemma SelectIsPrefix(t: Tables, q: Query, limit: nat)
    requires Inv(t)
    ensures Select(t, q, limit) == Take(Matching(t.messages, q, |t.messages|), limit)
    ensures OrderBy(q, Matching(t.messages, q, |t.messages|)) == Matching(t.messages, q, |t.messages|)
  {
    MatchingSorted(t, q, |t.messages|);
    OrderBySorted(q, Matching(t.messages, q, |t.messages|));
  }

  lemma {:induction false} MatchingOfPrefix(a: seq<Row>, b: seq<Row>, q: Query, n: nat)
    requires a <= b && n <= |a|
    ensures Matching(a, q, n) == Matching(b, q, n)
  {
    hide Matches, Matching;
    if n == 0 {
      NoMatchYet(a, q);
      NoMatchYet(b, q);
    } else {
      MatchingStep(a, q, n);
      MatchingStep(b, q, n);
      MatchingOfPrefix(a, b, q, n - 1);
    }
  }

  lemma {:induction false} MatchingGrows(rows: seq<Row>, q: Query, i: nat, n: nat)
    requires i <= n <= |rows|
    ensures Matching(rows, q, i) <= Matching(rows, q, n)
    decreases n - i
  {
    if i < n {
      MatchingGrows(rows, q, i, n - 1);
    }
  }

  // The j-th match is the last match among the rows up to its own position.
  lemma {:induction false} MatchPosition(rows: seq<Row>, q: Query, n: nat, j: nat) returns (i: nat)
    requires n <= |rows| && j < |Matching(rows, q, n)|
    ensures i < n && rows[i] == Matching(rows, q, n)[j]
    ensures Matching(rows, q, i + 1) == Matching(rows, q, n)[..j + 1]
  {
    hide Matches, Matching;
    if n == 0 {
      NoMatchYet(rows, q);
    }
    MatchingStep(rows, q, n);
    if j < |Matching(rows, q, n - 1)| {
      i := MatchPosition(rows, q, n - 1, j);
    } else {
      i := n - 1;
    }
  }

  // ------------------------------------------------------ mailbox pagination

  // The rows of one mailbox with sequence in (low, high].
  function Interval(rows: seq<Row>, recipient: Name, low: int, high: int, n: nat): seq<Row>
    requires n <= |rows|
  {
    if n == 0 then []
    else
      var m := rows[n - 1];
      Interval(rows, recipient, low, high, n - 1)
      + (if m.recipient == recipient && low < m.sequence <= high then [m] else [])
  }

  predicate Between(m: Row, recipient: Name, low: int, high: int) {
    m.recipient == recipient && low < m.sequence <= high
  }

  lemma IntervalStep(rows: seq<Row>, r: Name, low: int, high: int, n: nat)
    requires 0 < n <= |rows|
    ensures Interval(rows, r, low, high, n)
         == if Between(rows[n - 1], r, low, high) then Interval(rows, r, low, high, n - 1) + [rows[n - 1]]
            else Interval(rows, r, low, high, n - 1)
  {
  }

  lemma NothingYet(rows: seq<Row>, r: Name, low: int, high: int)
    ensures Interval(rows, r, low, high, 0) == [] && Count(rows, r, 0) == 0
    ensures forall q :: Matching(rows, q, 0) == []
  {
  }

  // An interval of an intact mailbox has no gap and no repetition.
  lemma {:induction false} IntervalShape(t: Tables, r: Name, low: nat, high: nat, n: nat)
    requires Inv(t) && n <= |t.messages|
    ensures var rows := Interval(t.messages, r, low, high, n);
            && (var top := Min(Count(t.messages, r, n), high); |rows| == if top > low then top - low else 0)
            && forall j :: 0 <= j < |rows| ==> rows[j].sequence == low + 1 + j && rows[j].recipient == r
  {
    hide Inv, Interval;
    if n == 0 {
      NothingYet(t.messages, r, low, high);
    } else {
      RowFact(t, n - 1);
      IntervalStep(t.messages, r, low, high, n);
      IntervalShape(t, r, low, high, n - 1);
    }
  }

  lemma {:induction false} NewerIsInterval(t: Tables, r: Name, low: nat, high: nat, n: nat)
    requires Inv(t) && n <= |t.messages| && high >= Count(t.messages, r, n)
    ensures Matching(t.messages, Newer(r, low), n) == Interval(t.messages, r, low, high, n)
  {
    hide Inv, Interval, Matching;
    if n == 0 {
      NothingYet(t.messages, r, low, high);
    } else {
      MatchingStep(t.messages, Newer(r, low), n);
      IntervalStep(t.messages, r, low, high, n);
      RowFact(t, n - 1);
      NewerIsInterval(t, r, low, high, n - 1);
    }
  }

  // Cutting an interval short cuts its row list short.
  lemma {:induction false} IntervalPrefix(t: Tables, r: Name, low: nat, mid: nat, high: nat, n: nat)
    requires Inv(t) && n <= |t.messages| && low <= mid <= high
    ensures Interval(t.messages, r, low, mid, n) == Take(Interval(t.messages, r, low, high, n), mid - low)
  {
    hide Inv, Interval;
    if n == 0 {
      NothingYet(t.messages, r, low, mid);
      NothingYet(t.messages, r, low, high);
    } else {
      RowFact(t, n - 1);
      IntervalStep(t.messages, r, low, mid, n);
      IntervalStep(t.messages, r, low, high, n);
      IntervalPrefix(t, r, low, mid, high, n - 1);
      IntervalShape(t, r, low, high, n - 1);
    }
  }

  lemma {:induction false} IntervalJoin(t: Tables, r: Name, low: nat, mid: nat, high: nat, n: nat)
    requires Inv(t) && n <= |t.messages| && low <= mid <= high
    ensures Interval(t.messages, r, low, high, n)
         == Interval(t.messages, r, low, mid, n) + Interval(t.messages, r, mid, high, n)
  {
    hide Inv, Interval;
    if n == 0 {
      NothingYet(t.messages, r, low, mid);
      NothingYet(t.messages, r, mid, high);
      NothingYet(t.messages, r, low, high);
    } else {
      RowFact(t, n - 1);
      IntervalStep(t.messages, r, low, mid, n);
      IntervalStep(t.messages, r, mid, high, n);
      IntervalStep(t.messages, r, low, high, n);
      IntervalJoin(t, r, low, mid, high, n - 1);
      IntervalShape(t, r, mid, high, n - 1);
      AppendCases(Interval(t.messages, r, low, mid, n - 1), Interval(t.messages, r, mid, high, n - 1), t.messages[n - 1]);
    }
  }

  lemma AppendCases<T>(a: seq<T>, b: seq<T>, x: T)
    ensures (a + b) + [x] == a + (b + [x]) && (a + b) + [] == a + b
    ensures b == [] ==> (a + b) + [x] == (a + [x]) + b
  {
  }

  lemma HighIsCount(t: Tables, r: Name)
    requires Inv(t)
    ensures High(t, r) == Count(t.messages, r, |t.messages|) <= MAX_U32
  {
  }

  lemma {:induction false} IntervalStable(a: Tables, b: Tables, r: Name, low: nat, high: nat, n: nat)
    requires Inv(a) && Inv(b) && Extends(a, b) && high <= High(a, r) && |a.messages| <= n <= |b.messages|
    ensures Interval(b.messages, r, low, high, n) == Interval(a.messages, r, low, high, |a.messages|)
    decreases n
  {
    hide Inv, Interval;
    if n == |a.messages| {
      IntervalOfPrefix(a.messages, b.messages, r, low, high, n);
    } else {
      IntervalStep(b.messages, r, low, high, n);
      IntervalStable(a, b, r, low, high, n - 1);
      RowFact(b, n - 1);
      HighIsCount(a, r);
      CountOfPrefix(a.messages, b.messages, r, |a.messages|);
      CountGrows(b.messages, r, |a.messages|, n - 1);
    }
  }

  lemma {:induction false} IntervalOfPrefix(a: seq<Row>, b: seq<Row>, r: Name, low: nat, high: nat, n: nat)
    requires a <= b && n <= |a|
    ensures Interval(a, r, low, high, n) == Interval(b, r, low, high, n)
  {
    if n == 0 {
    } else {
      IntervalOfPrefix(a, b, r, low, high, n - 1);
    }
  }

  // One page is the next interval of the mailbox, cut off after `limit` rows.
  lemma PageIsInterval(t: Tables, callsign: Name, since: nat, limit: nat)
    requires Inv(t) && 1 <= limit <= MAX_LIMIT && since <= High(t, callsign)
    ensures var r := GetNewMessages(t, callsign, since, limit);
            var next := Min(since + limit, High(t, callsign));
            && r.Ok?
            && r.value.nextSince == next
            && r.value.messages == Interval(t.messages, callsign, since, next, |t.messages|)
            && (r.value.hasMore <==> since + limit < High(t, callsign))
  {
    hide Inv, Damaged, Select, Interval, Take, Count;
    HighIsCount(t, callsign);
    NeverDamaged(t, callsign);
    PageRows(t, callsign, since, limit);
    IntervalShape(t, callsign, since, Min(since + limit, High(t, callsign)), |t.messages|);
  }

  // The rows a page is made from: one more than it returns tells whether there
  // are more.
  lemma PageRows(t: Tables, callsign: Name, since: nat, limit: nat)
    requires Inv(t) && since <= High(t, callsign)
    ensures var rows := Select(t, Newer(callsign, since), limit + 1);
            && Take(rows, limit) == Interval(t.messages, callsign, since, Min(since + limit, High(t, callsign)), |t.messages|)
            && (|rows| > limit <==> since + limit < High(t, callsign))
  {
    hide Inv, Select, Interval, Matching, OrderBy, Count;
    var n, high := |t.messages|, High(t, callsign);
    HighIsCount(t, callsign);
    SelectIsPrefix(t, Newer(callsign, since), limit + 1);
    NewerIsInterval(t, callsign, since, high, n);
    IntervalShape(t, callsign, since, high, n);
    IntervalPrefix(t, callsign, since, Min(since + limit, high), high, n);
  }

  lemma CursorAheadRefused(t: Tables, callsign: Name, since: int, limit: int)
    requires Inv(t)
    ensures var r := GetNewMessages(t, callsign, since, limit);
            && (r == Err(BadValue) <==> !IsU32(since) || !(1 <= limit <= MAX_LIMIT))
            && (r == Err(CursorAhead) <==> IsU32(since) && 1 <= limit <= MAX_LIMIT && since > High(t, callsign))
            && r != Err(Integrity)
  {
    NeverDamaged(t, callsign);
  }

  // A client follows next_since while others keep storing: `history[i]` is the
  // table page i reads.
  ghost predicate History(history: seq<Tables>) {
    && (forall i :: 0 <= i < |history| ==> Inv(history[i]))
    && (forall i, j :: 0 <= i <= j < |history| ==> Extends(history[i], history[j]))
  }

  function CursorAfter(history: seq<Tables>, callsign: Name, since: nat, limits: seq<nat>, n: nat): int
    requires n <= |history| && n <= |limits|
  {
    if n == 0 then since
    else match GetNewMessages(history[n - 1], callsign, CursorAfter(history, callsign, since, limits, n - 1), limits[n - 1])
      case Ok(page) => page.nextSince
      case Err(_) => CursorAfter(history, callsign, since, limits, n - 1)
  }

  function Collected(history: seq<Tables>, callsign: Name, since: nat, limits: seq<nat>, n: nat): seq<Row>
    requires n <= |history| && n <= |limits|
  {
    if n == 0 then []
    else match GetNewMessages(history[n - 1], callsign, CursorAfter(history, callsign, since, limits, n - 1), limits[n - 1])
      case Ok(page) => Collected(history, callsign, since, limits, n - 1) + page.messages
      case Err(_) => Collected(history, callsign, since, limits, n - 1)
  }

  lemma HighGrows(a: Tables, b: Tables, r: Name)
    requires Inv(a) && Inv(b) && Extends(a, b)
    ensures High(a, r) <= High(b, r)
  {
    CountOfPrefix(a.messages, b.messages, r, |a.messages|);
    CountGrows(b.messages, r, |a.messages|, |b.messages|);
  }

  ghost predicate Limits(limits: seq<nat>) {
    forall i :: 0 <= i < |limits| ==> 1 <= limits[i] <= MAX_LIMIT
  }

  // Following next_since never fails, and what has been returned after n pages
  // is exactly the mailbox from the starting cursor to the present one.
  lemma {:induction false} PaginationIsExact(history: seq<Tables>, callsign: Name, since: nat, limits: seq<nat>, n: nat)
    requires History(history) && Limits(limits) && 0 < n <= |history| && n <= |limits|
    requires since <= High(history[0], callsign)
    ensures var cursor := CursorAfter(history, callsign, since, limits, n);
            var t := history[n - 1];
            && since <= cursor <= High(t, callsign)
            && Collected(history, callsign, since, limits, n)
               == Interval(t.messages, callsign, since, cursor, |t.messages|)
            && cursor == Min(CursorAfter(history, callsign, since, limits, n - 1) + limits[n - 1], High(t, callsign))
  {
    hide CursorAfter, Collected, GetNewMessages, Interval, Inv, Extends;
    var t, before := history[n - 1], CursorAfter(history, callsign, since, limits, n - 1);
    NoPagesYet(history, callsign, since, limits);
    if n == 1 {
      IntervalShape(t, callsign, since, since, |t.messages|);
      PageJoins(t, t, callsign, since, since, limits[0]);
    } else {
      PaginationIsExact(history, callsign, since, limits, n - 1);
      PageJoins(history[n - 2], t, callsign, since, before, limits[n - 1]);
    }
    NextPage(history, callsign, since, limits, n);
  }

  lemma NoPagesYet(history: seq<Tables>, callsign: Name, since: nat, limits: seq<nat>)
    ensures CursorAfter(history, callsign, since, limits, 0) == since
    ensures Collected(history, callsign, since, limits, 0) == []
  {
  }

  lemma NextPage(history: seq<Tables>, callsign: Name, since: nat, limits: seq<nat>, n: nat)
    requires 0 < n <= |history| && n <= |limits|
    ensures var page := GetNewMessages(history[n - 1], callsign, CursorAfter(history, callsign, since, limits, n - 1), limits[n - 1]);
            page.Ok? ==>
              && CursorAfter(history, callsign, since, limits, n) == page.value.nextSince
              && Collected(history, callsign, since, limits, n)
                 == Collected(history, callsign, since, limits, n - 1) + page.value.messages
  {
    hide GetNewMessages;
  }

  // A page read from later tables continues an interval read from earlier ones.
  lemma PageJoins(a: Tables, t: Tables, callsign: Name, since: nat, before: nat, limit: nat)
    requires Inv(a) && Inv(t) && Extends(a, t) && since <= before <= High(a, callsign) && 1 <= limit <= MAX_LIMIT
    ensures var page := GetNewMessages(t, callsign, before, limit);
            && page.Ok?
            && page.value.nextSince == Min(before + limit, High(t, callsign)) >= before
            && Interval(a.messages, callsign, since, before, |a.messages|) + page.value.messages
               == Interval(t.messages, callsign, since, page.value.nextSince, |t.messages|)
  {
    hide GetNewMessages, Interval, Inv, High;
    HighGrows(a, t, callsign);
    PageIsInterval(t, callsign, before, limit);
    IntervalStable(a, t, callsign, since, before, |t.messages|);
    IntervalJoin(t, callsign, since, before, Min(before + limit, High(t, callsign)), |t.messages|);
  }

  // Termination: while nobody stores, has_more can be true only as often as
  // there are unread messages, and the page that says false ends at the top.
  lemma {:induction false} PaginationEnds(t: Tables, callsign: Name, since: nat, limits: seq<nat>, n: nat)
    requires Inv(t) && Limits(limits) && n <= |limits| && since <= High(t, callsign)
    requires forall i :: 0 <= i < n ==> SaysMore(t, callsign, since, limits, i)
    ensures n <= High(t, callsign) - since
    ensures since + n <= CursorAfter(Constant(t, n), callsign, since, limits, n) <= High(t, callsign)
  {
    hide GetNewMessages, Inv, Interval, CursorAfter, Collected, Constant;
    NoPagesYet(Constant(t, n), callsign, since, limits);
    if n == 0 {
    } else {
      PaginationEnds(t, callsign, since, limits, n - 1);
      assert SaysMore(t, callsign, since, limits, n - 1);
      CursorReadsPrefix(Constant(t, n), Constant(t, n - 1), callsign, since, limits, n - 1);
      PageIsInterval(t, callsign, CursorAfter(Constant(t, n - 1), callsign, since, limits, n - 1), limits[n - 1]);
      NextPage(Constant(t, n), callsign, since, limits, n);
    }
  }

  function Constant(t: Tables, n: nat): (h: seq<Tables>)
    ensures |h| == n
    ensures forall i :: 0 <= i < n ==> h[i] == t
  {
    seq(n, i => t)
  }

  ghost predicate SaysMore(t: Tables, callsign: Name, since: nat, limits: seq<nat>, i: nat)
    requires i < |limits|
  {
    var page := GetNewMessages(t, callsign, CursorAfter(Constant(t, i), callsign, since, limits, i), limits[i]);
    page.Ok? && page.value.hasMore
  }

  lemma {:induction false} CursorReadsPrefix(a: seq<Tables>, b: seq<Tables>, callsign: Name, since: nat, limits: seq<nat>, n: nat)
    requires n <= |a| && n <= |b| && n <= |limits| && forall i :: 0 <= i < n ==> a[i] == b[i]
    ensures CursorAfter(a, callsign, since, limits, n) == CursorAfter(b, callsign, since, limits, n)
  {
    hide GetNewMessages;
    if n == 0 {
    } else {
      CursorReadsPrefix(a, b, callsign, since, limits, n - 1);
    }
  }
}
