// Rank and select over the messages one author sent to one recipient.
module Conversations {
  import opened Prelude
  import opened Mailbox
  import opened MailboxProofs

  function Incomings(t: Tables, m: Row, n: nat): seq<Row>
    requires n <= |t.messages|
  {
    Matching(t.messages, Incoming(m.recipient, m.author), n)
  }

  lemma CountStep(rows: seq<Row>, m: Row, n: nat)
    requires 0 < n <= |rows|
    ensures CountUpTo(rows, m.recipient, m.author, m.sequence, n)
         == CountUpTo(rows, m.recipient, m.author, m.sequence, n - 1)
            + if Matches(Incoming(m.recipient, m.author), rows[n - 1]) && rows[n - 1].sequence <= m.sequence then 1 else 0
  {
  }

  // The rank of a row is its place among the matches of the table.
  lemma {:induction false} RankIsPlace(t: Tables, i: nat, n: nat)
    requires Inv(t) && i < |t.messages| && n <= |t.messages|
    ensures var m := t.messages[i];
            CountUpTo(t.messages, m.recipient, m.author, m.sequence, n) == |Incomings(t, m, Min(n, i + 1))|
  {
    hide Inv, Matching, CountUpTo;
    var m := t.messages[i];
    if n == 0 {
      CountOfNone(t.messages, m);
      NoMatchYet(t.messages, Incoming(m.recipient, m.author));
    } else {
      RankIsPlace(t, i, n - 1);
      CountStep(t.messages, m, n);
      MatchingStep(t.messages, Incoming(m.recipient, m.author), n);
      if t.messages[n - 1].recipient == m.recipient {
        SequenceOrder(t, i, n - 1);
      }
    }
  }

  lemma CountOfNone(rows: seq<Row>, m: Row)
    ensures CountUpTo(rows, m.recipient, m.author, m.sequence, 0) == 0
  {
  }

  lemma SequenceOrder(t: Tables, i: nat, j: nat)
    requires Inv(t) && i < |t.messages| && j < |t.messages| && t.messages[i].recipient == t.messages[j].recipient
    ensures t.messages[j].sequence <= t.messages[i].sequence <==> j <= i
  {
    hide Inv;
    if i < j {
      SequencesIncrease(t, i, j);
    } else if j < i {
      SequencesIncrease(t, j, i);
    }
  }

  lemma {:induction false} MatchesAtMostCount(rows: seq<Row>, r: Name, a: Name, n: nat)
    requires n <= |rows|
    ensures |Matching(rows, Incoming(r, a), n)| <= Count(rows, r, n)
  {
    hide Matching;
    if n == 0 {
      NoMatchYet(rows, Incoming(r, a));
    } else {
      MatchingStep(rows, Incoming(r, a), n);
      MatchesAtMostCount(rows, r, a, n - 1);
    }
  }

  // The rank is always defined, and the row stands at that place.
  lemma RankPlaces(t: Tables, i: nat)
    requires Inv(t) && i < |t.messages|
    ensures var m := t.messages[i];
            var rows := Incomings(t, m, |t.messages|);
            var k := |Incomings(t, m, i + 1)|;
            && ConversationSequence(t, m) == Ok(k)
            && 1 <= k <= |rows| && k <= m.sequence && k <= MAX_U32 && rows[k - 1] == m
  {
    hide Inv, Matching, CountUpTo;
    var m := t.messages[i];
    var q := Incoming(m.recipient, m.author);
    RankIsPlace(t, i, |t.messages|);
    MatchingStep(t.messages, q, i + 1);
    MatchingGrows(t.messages, q, i + 1, |t.messages|);
    MatchesAtMostCount(t.messages, m.recipient, m.author, i + 1);
    CountTop(t, i);
  }

  lemma CountTop(t: Tables, i: nat)
    requires Inv(t) && i < |t.messages|
    ensures Count(t.messages, t.messages[i].recipient, i + 1) == t.messages[i].sequence <= MAX_U32
  {
  }

  lemma SelectIsPlace(t: Tables, recipient: Name, author: Name, number: int)
    requires Inv(t) && 1 <= number <= MAX_U32
    ensures var rows := Matching(t.messages, Incoming(recipient, author), |t.messages|);
            GetConversationMessage(t, recipient, author, number)
            == Ok(if number <= |rows| then Some(rows[number - 1]) else None)
  {
    hide Inv, Matching, OrderBy;
    SelectIsPrefix(t, Incoming(recipient, author), 0);
  }

  // select(rank(m)) == m
  lemma SelectOfRank(t: Tables, m: Row)
    requires Inv(t) && m in t.messages
    ensures var k := ConversationSequence(t, m);
            k.Ok? && GetConversationMessage(t, m.recipient, m.author, k.value) == Ok(Some(m))
  {
    hide Inv, Matching, ConversationSequence, GetConversationMessage;
    var i :| 0 <= i < |t.messages| && t.messages[i] == m;
    RankPlaces(t, i);
    SelectIsPlace(t, m.recipient, m.author, ConversationSequence(t, m).value);
  }

  // rank(select(n)) == n, and select answers for every number up to the size
  // of the conversation and for no other.
  lemma RankOfSelect(t: Tables, recipient: Name, author: Name, number: int)
    requires Inv(t) && 1 <= number <= MAX_U32
    ensures var r := GetConversationMessage(t, recipient, author, number);
            && r.Ok?
            && (r.value.Some? <==> number <= |Matching(t.messages, Incoming(recipient, author), |t.messages|)|)
            && (r.value.Some? ==>
                  && r.value.value in t.messages
                  && r.value.value.recipient == recipient && r.value.value.author == author
                  && ConversationSequence(t, r.value.value) == Ok(number))
  {
    hide Inv, Matching, ConversationSequence, GetConversationMessage;
    SelectIsPlace(t, recipient, author, number);
    var q := Incoming(recipient, author);
    var rows := Matching(t.messages, q, |t.messages|);
    if number <= |rows| {
      var i := MatchPosition(t.messages, q, |t.messages|, number - 1);
      assert rows[number - 1] in rows;
      RankPlaces(t, i);
    }
  }

  // Later stores change neither answer.
  lemma RankIsStable(a: Tables, b: Tables, m: Row)
    requires Inv(a) && Inv(b) && Extends(a, b) && m in a.messages
    ensures ConversationSequence(b, m) == ConversationSequence(a, m)
  {
    hide Inv, Matching, ConversationSequence;
    var i :| 0 <= i < |a.messages| && a.messages[i] == m;
    RankPlaces(a, i);
    RankPlaces(b, i);
    MatchingOfPrefix(a.messages, b.messages, Incoming(m.recipient, m.author), i + 1);
  }

  lemma SelectIsStable(a: Tables, b: Tables, recipient: Name, author: Name, number: int)
    requires Inv(a) && Inv(b) && Extends(a, b)
    requires GetConversationMessage(a, recipient, author, number).Ok?
    requires GetConversationMessage(a, recipient, author, number).value.Some?
    ensures GetConversationMessage(b, recipient, author, number) == GetConversationMessage(a, recipient, author, number)
  {
    hide Inv, Matching, ConversationSequence, OrderBy;
    RankOfSelect(a, recipient, author, number);
    var m := GetConversationMessage(a, recipient, author, number).value.value;
    RankIsStable(a, b, m);
    SelectOfRank(b, m);
  }
}
