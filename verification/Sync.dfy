// The API's two incremental readers: /sync, which spans two transactions, and
// the paged message list.
module Sync {
  import opened Prelude
  import opened Mailbox
  import opened MailboxProofs

  const SYNC_LIMIT: nat := 200

  datatype Reply = Reply(messages: seq<Row>, cursor: nat)

  // `atHigh` and `atList` are the tables the two reads of one call see.
  function SyncCall(atHigh: Tables, atList: Tables, callsign: Name, after: nat): Result<Reply, StoreError> {
    if after > atHigh.apiHigh then Err(CursorAhead)
    else
      var values := ApiList(atList, callsign, after, SYNC_LIMIT, None).messages;
      Ok(Reply(values, if values == [] then atHigh.apiHigh else values[|values| - 1].apiSequence))
  }

  datatype ListPage = ListPage(messages: seq<Row>, nextCursor: Option<nat>)

  function ListMessages(t: Tables, callsign: Name, after: nat, limit: nat, peer: Option<Name>): ListPage {
    var listing := ApiList(t, callsign, after, limit, peer);
    var values := listing.messages;
    ListPage(values, if listing.more && values != [] then Some(values[|values| - 1].apiSequence) else None)
  }

  // ------------------------------------------------------------ the key facts

  // The visible rows with API sequence in (start, end], in API order.
  function Between(t: Tables, callsign: Name, peer: Option<Name>, start: nat, end: nat): seq<Row>
    requires end <= |t.messages|
  {
    Matching(t.messages, Visible(callsign, start, peer), end)
  }

  lemma {:induction false} NothingBeforeCursor(t: Tables, callsign: Name, peer: Option<Name>, start: nat, n: nat)
    requires Inv(t) && n <= |t.messages| && n <= start
    ensures Between(t, callsign, peer, start, n) == []
  {
    hide Inv, Matching;
    if n == 0 {
      NoMatchYet(t.messages, Visible(callsign, start, peer));
    } else {
      MatchingStep(t.messages, Visible(callsign, start, peer), n);
      RowFact(t, n - 1);
      NothingBeforeCursor(t, callsign, peer, start, n - 1);
    }
  }

  lemma {:induction false} BetweenJoins(t: Tables, callsign: Name, peer: Option<Name>, start: nat, mid: nat, n: nat)
    requires Inv(t) && start <= mid <= n <= |t.messages|
    ensures Between(t, callsign, peer, start, n)
         == Between(t, callsign, peer, start, mid) + Between(t, callsign, peer, mid, n)
    decreases n
  {
    hide Inv, Matching;
    if n == mid {
      NothingBeforeCursor(t, callsign, peer, mid, n);
    } else {
      MatchingStep(t.messages, Visible(callsign, start, peer), n);
      MatchingStep(t.messages, Visible(callsign, mid, peer), n);
      RowFact(t, n - 1);
      BetweenJoins(t, callsign, peer, start, mid, n - 1);
      AppendCases(Between(t, callsign, peer, start, mid), Between(t, callsign, peer, mid, n - 1), t.messages[n - 1]);
    }
  }

  lemma BetweenStable(a: Tables, b: Tables, callsign: Name, peer: Option<Name>, start: nat, end: nat)
    requires Extends(a, b) && end <= |a.messages|
    ensures end <= |b.messages| && Between(a, callsign, peer, start, end) == Between(b, callsign, peer, start, end)
  {
    MatchingOfPrefix(a.messages, b.messages, Visible(callsign, start, peer), end);
  }

  // One listing is the visible interval from the cursor to its own last row,
  // or, when it is not cut short, to the end of the table.
  lemma ListingIsInterval(t: Tables, callsign: Name, after: nat, limit: nat, peer: Option<Name>)
    requires Inv(t) && limit > 0 && after <= |t.messages|
    ensures var l := ApiList(t, callsign, after, limit, peer);
            && (l.messages == [] ==> Between(t, callsign, peer, after, |t.messages|) == [] && !l.more)
            && (l.messages != [] ==>
                  var last := l.messages[|l.messages| - 1].apiSequence;
                  after < last <= |t.messages| && l.messages == Between(t, callsign, peer, after, last))
            && (!l.more ==> l.messages == Between(t, callsign, peer, after, |t.messages|))
            && (l.more ==> |l.messages| == limit)
  {
    hide Inv, Select, Matching, OrderBy;
    var q := Visible(callsign, after, peer);
    var all := Matching(t.messages, q, |t.messages|);
    SelectIsPrefix(t, q, limit + 1);
    var l := ApiList(t, callsign, after, limit, peer);
    assert l.messages == Take(all, limit);
    if l.messages != [] {
      LastOfPrefix(t, q, |l.messages|);
    }
  }

  lemma LastOfPrefix(t: Tables, q: Query, k: nat)
    requires Inv(t) && q.Visible? && 0 < k <= |Matching(t.messages, q, |t.messages|)|
    ensures var all := Matching(t.messages, q, |t.messages|);
            var last := all[k - 1].apiSequence;
            q.after < last <= |t.messages| && Matching(t.messages, q, last) == all[..k]
  {
    hide Inv, Matching;
    var all := Matching(t.messages, q, |t.messages|);
    var i := MatchPosition(t.messages, q, |t.messages|, k - 1);
    RowFact(t, i);
    assert all[k - 1] in all;
  }

  // ------------------------------------------------------------------- /sync

  function SyncCursor(history: seq<Tables>, callsign: Name, start: nat, n: nat): nat
    requires 2 * n <= |history|
  {
    if n == 0 then start
    else
      var before := SyncCursor(history, callsign, start, n - 1);
      match SyncCall(history[2 * n - 2], history[2 * n - 1], callsign, before)
      case Ok(reply) => reply.cursor
      case Err(_) => before
  }

  function Synced(history: seq<Tables>, callsign: Name, start: nat, n: nat): seq<Row>
    requires 2 * n <= |history|
  {
    if n == 0 then []
    else
      match SyncCall(history[2 * n - 2], history[2 * n - 1], callsign, SyncCursor(history, callsign, start, n - 1))
      case Ok(reply) => Synced(history, callsign, start, n - 1) + reply.messages
      case Err(_) => Synced(history, callsign, start, n - 1)
  }

  // One call from an accepted cursor: it never goes back, never passes what
  // the listing saw, and returns exactly what lies between the two cursors.
  lemma SyncCallIsExact(atHigh: Tables, atList: Tables, callsign: Name, after: nat)
    requires Inv(atHigh) && Inv(atList) && Extends(atHigh, atList)
    ensures var r := SyncCall(atHigh, atList, callsign, after);
            && (r.Ok? <==> after <= atHigh.apiHigh)
            && (r.Ok? ==>
                  && after <= r.value.cursor <= atList.apiHigh == |atList.messages|
                  && r.value.messages == Between(atList, callsign, None, after, r.value.cursor)
                  && |r.value.messages| <= SYNC_LIMIT
                  && (r.value.messages == [] ==> r.value.cursor == atHigh.apiHigh))
  {
    hide ApiList, Matching;
    if after <= atHigh.apiHigh {
      ListingIsInterval(atList, callsign, after, SYNC_LIMIT, None);
      MatchingGrows(atList.messages, Visible(callsign, after, None), atHigh.apiHigh, |atList.messages|);
      ListingBound(atList, callsign, after, SYNC_LIMIT, None);
    }
  }

  lemma ListingBound(t: Tables, callsign: Name, after: nat, limit: nat, peer: Option<Name>)
    ensures |ApiList(t, callsign, after, limit, peer).messages| <= limit
  {
    hide Select;
  }

  // With any commits between the two reads of a call and between calls, no
  // call is refused and the results so far are exactly the caller's visible
  // messages from the first cursor to the present one, each once, in order.
  lemma {:induction false} SyncLosesNothing(history: seq<Tables>, callsign: Name, start: nat, n: nat)
    requires History(history) && 0 < 2 * n <= |history| && start <= history[0].apiHigh
    ensures var cursor := SyncCursor(history, callsign, start, n);
            var t := history[2 * n - 1];
            && SyncCall(history[2 * n - 2], t, callsign, SyncCursor(history, callsign, start, n - 1)).Ok?
            && SyncCursor(history, callsign, start, n - 1) <= cursor
            && start <= cursor <= t.apiHigh == |t.messages|
            && Synced(history, callsign, start, n) == Between(t, callsign, None, start, cursor)
  {
    hide SyncCall, SyncCursor, Synced, Inv, Extends, Between;
    var before := SyncCursor(history, callsign, start, n - 1);
    NoCallsYet(history, callsign, start);
    if n == 1 {
      ApiHighGrows(history[0], history[1]);
      NothingBeforeCursor(history[1], callsign, None, start, start);
      SyncJoins(history[1], history[0], history[1], callsign, start, start);
    } else {
      SyncLosesNothing(history, callsign, start, n - 1);
      ApiHighGrows(history[2 * n - 3], history[2 * n - 2]);
      SyncJoins(history[2 * n - 3], history[2 * n - 2], history[2 * n - 1], callsign, start, before);
    }
    NextCall(history, callsign, start, n);
  }

  lemma ApiHighGrows(a: Tables, b: Tables)
    requires Inv(a) && Inv(b) && Extends(a, b)
    ensures a.apiHigh == |a.messages| <= b.apiHigh == |b.messages|
  {
  }

  lemma NoCallsYet(history: seq<Tables>, callsign: Name, start: nat)
    ensures SyncCursor(history, callsign, start, 0) == start && Synced(history, callsign, start, 0) == []
  {
  }

  lemma NextCall(history: seq<Tables>, callsign: Name, start: nat, n: nat)
    requires 0 < 2 * n <= |history|
    ensures var r := SyncCall(history[2 * n - 2], history[2 * n - 1], callsign, SyncCursor(history, callsign, start, n - 1));
            r.Ok? ==>
              && SyncCursor(history, callsign, start, n) == r.value.cursor
              && Synced(history, callsign, start, n) == Synced(history, callsign, start, n - 1) + r.value.messages
  {
    hide SyncCall;
  }

  lemma SyncJoins(a: Tables, atHigh: Tables, atList: Tables, callsign: Name, start: nat, before: nat)
    requires Inv(a) && Inv(atHigh) && Inv(atList) && Extends(a, atList) && Extends(atHigh, atList)
    requires start <= before <= |a.messages| && before <= atHigh.apiHigh
    ensures var r := SyncCall(atHigh, atList, callsign, before);
            && r.Ok?
            && before <= r.value.cursor <= atList.apiHigh == |atList.messages|
            && Between(a, callsign, None, start, before) + r.value.messages
               == Between(atList, callsign, None, start, r.value.cursor)
  {
    hide SyncCall, Inv, Extends, Between;
    SyncCallIsExact(atHigh, atList, callsign, before);
    var cursor := SyncCall(atHigh, atList, callsign, before).value.cursor;
    BetweenStable(a, atList, callsign, None, start, before);
    BetweenJoins(atList, callsign, None, start, before, cursor);
  }

  // A cursor issued once is accepted by every later call.
  lemma IssuedCursorAccepted(history: seq<Tables>, callsign: Name, start: nat, n: nat, atHigh: Tables, atList: Tables)
    requires History(history) && 0 < 2 * n <= |history| && start <= history[0].apiHigh
    requires Inv(atHigh) && Inv(atList) && Extends(history[2 * n - 1], atHigh) && Extends(atHigh, atList)
    ensures SyncCall(atHigh, atList, callsign, SyncCursor(history, callsign, start, n)).Ok?
  {
    hide SyncCall, SyncCursor, Synced, Inv, Extends, Between;
    SyncLosesNothing(history, callsign, start, n);
    ApiHighGrows(history[2 * n - 1], atHigh);
    SyncCallIsExact(atHigh, atList, callsign, SyncCursor(history, callsign, start, n));
  }

  // -------------------------------------------------------- the message list

  function ListCursor(history: seq<Tables>, callsign: Name, peer: Option<Name>, limits: seq<nat>, n: nat): Option<nat>
    requires n <= |history| && n <= |limits|
  {
    if n == 0 then Some(0)
    else match ListCursor(history, callsign, peer, limits, n - 1)
      case None => None
      case Some(after) => ListMessages(history[n - 1], callsign, after, limits[n - 1], peer).nextCursor
  }

  function Listed(history: seq<Tables>, callsign: Name, peer: Option<Name>, limits: seq<nat>, n: nat): seq<Row>
    requires n <= |history| && n <= |limits|
  {
    if n == 0 then []
    else match ListCursor(history, callsign, peer, limits, n - 1)
      case None => Listed(history, callsign, peer, limits, n - 1)
      case Some(after) =>
        Listed(history, callsign, peer, limits, n - 1)
        + ListMessages(history[n - 1], callsign, after, limits[n - 1], peer).messages
  }

  // One page joins onto what earlier pages covered: up to its next cursor, or
  // to the end of the table when it gives none. A page that goes on is full.
  lemma PageContinues(a: Tables, t: Tables, callsign: Name, peer: Option<Name>, after: nat, limit: nat)
    requires Inv(a) && Inv(t) && Extends(a, t) && after <= |a.messages| && limit > 0
    ensures var page := ListMessages(t, callsign, after, limit, peer);
            && (page.nextCursor.Some? ==> after < page.nextCursor.value <= |t.messages| && |page.messages| == limit)
            && Between(a, callsign, peer, 0, after) + page.messages
               == Between(t, callsign, peer, 0, if page.nextCursor.Some? then page.nextCursor.value else |t.messages|)
  {
    hide ApiList, Inv, Between;
    var page := ListMessages(t, callsign, after, limit, peer);
    ListingIsInterval(t, callsign, after, limit, peer);
    BetweenStable(a, t, callsign, peer, 0, after);
    BetweenJoins(t, callsign, peer, 0, after, if page.nextCursor.Some? then page.nextCursor.value else |t.messages|);
  }

  lemma NoPagesListed(history: seq<Tables>, callsign: Name, peer: Option<Name>, limits: seq<nat>)
    ensures ListCursor(history, callsign, peer, limits, 0) == Some(0) && Listed(history, callsign, peer, limits, 0) == []
  {
  }

  lemma NextListed(history: seq<Tables>, callsign: Name, peer: Option<Name>, limits: seq<nat>, n: nat)
    requires 0 < n <= |history| && n <= |limits| && ListCursor(history, callsign, peer, limits, n - 1).Some?
    ensures var after := ListCursor(history, callsign, peer, limits, n - 1).value;
            var page := ListMessages(history[n - 1], callsign, after, limits[n - 1], peer);
            && ListCursor(history, callsign, peer, limits, n) == page.nextCursor
            && Listed(history, callsign, peer, limits, n) == Listed(history, callsign, peer, limits, n - 1) + page.messages
  {
    hide ListMessages;
  }

  // Following next_cursor while others keep storing returns every visible
  // message once, in API order; the walk ends when no cursor is given.
  lemma {:induction false} ListingIsExact(history: seq<Tables>, callsign: Name, peer: Option<Name>, limits: seq<nat>, n: nat)
    requires History(history) && 0 < n <= |history| && n <= |limits|
    requires forall i :: 0 <= i < |limits| ==> limits[i] > 0
    requires ListCursor(history, callsign, peer, limits, n - 1).Some?
    ensures var next := ListCursor(history, callsign, peer, limits, n);
            var t := history[n - 1];
            && (next.Some? ==> n <= next.value <= |t.messages|)
            && Listed(history, callsign, peer, limits, n)
               == Between(t, callsign, peer, 0, if next.Some? then next.value else |t.messages|)
  {
    hide ListMessages, ListCursor, Listed, Between, Inv, Extends;
    var after := ListCursor(history, callsign, peer, limits, n - 1).value;
    NoPagesListed(history, callsign, peer, limits);
    NextListed(history, callsign, peer, limits, n);
    if n == 1 {
      NothingBeforeCursor(history[0], callsign, peer, 0, 0);
      PageContinues(history[0], history[0], callsign, peer, 0, limits[0]);
    } else {
      CursorWasGiven(history, callsign, peer, limits, n - 1);
      ListingIsExact(history, callsign, peer, limits, n - 1);
      PageContinues(history[n - 2], history[n - 1], callsign, peer, after, limits[n - 1]);
    }
  }

  lemma CursorWasGiven(history: seq<Tables>, callsign: Name, peer: Option<Name>, limits: seq<nat>, n: nat)
    requires 0 < n <= |history| && n <= |limits| && ListCursor(history, callsign, peer, limits, n).Some?
    ensures ListCursor(history, callsign, peer, limits, n - 1).Some?
  {
    hide ListMessages;
  }
}
